/**
 * Concrete part trees shaped like the message fixtures the parser is known to
 * handle, with the exact bodies and lists the parser gives them.
 */
module MailExamples {
  import opened Outcomes
  import opened MimeTree
  import opened Mail

  /** The bytes of an ASCII string (each character's code, modulo 256). */
  function Ascii(s: string): (b: seq<Byte>)
    ensures |b| == |s|
  {
    seq(|s|, i requires 0 <= i < |s| => (s[i] as int % 0x100) as Byte)
  }

  function Leaf(contentType: string, disposition: string, fileName: string, content: seq<Byte>): Part
  {
    Part(contentType, disposition, fileName, content, [])
  }

  function Container(mediatype: string, children: seq<Part>): Part
  {
    Part(mediatype, "", "", [], children)
  }

  /** A tree whose children are all leaves. */
  predicate Flat(root: Part)
  {
    forall i :: 0 <= i < |root.children| ==> root.children[i].children == []
  }

  lemma {:induction false} PreOrderOfLeaves(ps: seq<Part>)
    requires forall i :: 0 <= i < |ps| ==> ps[i].children == []
    ensures PreOrderForest(ps) == ps
    decreases |ps|
  {
    if ps != [] {
      assert PreOrderForest(ps[0].children) == [];
      assert PreOrder(ps[0]) == [ps[0]];
      PreOrderOfLeaves(ps[1..]);
      assert PreOrderForest(ps) == [ps[0]] + ps[1..];
    }
  }

  lemma {:induction false} QueueOrderOfLeaves(ps: seq<Part>)
    requires forall i :: 0 <= i < |ps| ==> ps[i].children == []
    ensures QueueOrder(ps) == ps
    decreases |ps|
  {
    if ps != [] {
      assert ps[1..] + ps[0].children == ps[1..];
      QueueOrderOfLeaves(ps[1..]);
    }
  }

  /** In a flat tree both traversals visit the root and then its children from left to right. */
  lemma FlatOrders(root: Part)
    requires Flat(root)
    ensures PreOrder(root) == [root] + root.children
    ensures BreadthOrder(root) == [root] + root.children
  {
    PreOrderOfLeaves(root.children);
    assert [root][1..] + root.children == root.children;
    QueueOrderOfLeaves(root.children);
  }

  lemma FilterCons(x: Part, rest: seq<Part>, pred: Part -> bool)
    ensures Filter([x] + rest, pred) == (if pred(x) then [x] else []) + Filter(rest, pred)
  {
    assert ([x] + rest)[1..] == rest;
  }

  /** Two top-level text sections of a mixed message are joined with the separator. */
  lemma MixedTextSections(header: Headers.Header)
    ensures var one := Leaf("text/plain", "", "", Ascii("Section one\n"));
      var two := Leaf("text/plain", "", "", Ascii("Section two"));
      var root := Container("multipart/mixed", [one, two]);
      Multipart("multipart/mixed", root, header).text == Ascii("Section one\n\n--\nSection two")
  {
    var a, b := Ascii("Section one\n"), Ascii("Section two");
    var one, two := Leaf("text/plain", "", "", a), Leaf("text/plain", "", "", b);
    var root := Container("multipart/mixed", [one, two]);
    assert SelectText("multipart/mixed", root) == a + Separator + b by {
      assert DepthMatchAll(root, IsTextBody) == [one, two] by {
        FlatOrders(root);
        FilterCons(root, [one, two], IsTextBody);
        FilterCons(one, [two], IsTextBody);
        FilterCons(two, [], IsTextBody);
      }
      assert Join(Contents([one, two])) == a + Separator + b by {
        assert Contents([one, two]) == [a, b];
        JoinCons(a, [b]);
      }
      assert IsMultipart("multipart/mixed");
    }
    assert Multipart("multipart/mixed", root, header).text == a + Separator + b;
    SeparatedSections();
  }

  lemma SeparatedSections()
    ensures Ascii("Section one\n") + Separator + Ascii("Section two") == Ascii("Section one\n\n--\nSection two")
  {
  }

  /**
   * Two alternatives of a multipart/alternative message are also joined: the
   * first-alternative branch is never taken.
   */
  lemma AlternativesAreJoined(a: seq<Byte>, b: seq<Byte>, header: Headers.Header)
    ensures var root := Container("multipart/alternative",
                                  [Leaf("text/plain", "", "", a), Leaf("text/plain", "", "", b)]);
      Multipart("multipart/alternative", root, header).text == a + Separator + b
  {
    var one, two := Leaf("text/plain", "", "", a), Leaf("text/plain", "", "", b);
    var root := Container("multipart/alternative", [one, two]);
    assert SelectText("multipart/alternative", root) == a + Separator + b by {
      assert DepthMatchAll(root, IsTextBody) == [one, two] by {
        FlatOrders(root);
        FilterCons(root, [one, two], IsTextBody);
        FilterCons(one, [two], IsTextBody);
        FilterCons(two, [], IsTextBody);
      }
      assert Join(Contents([one, two])) == a + Separator + b by {
        assert Contents([one, two]) == [a, b];
        JoinCons(a, [b]);
      }
      assert IsMultipart("multipart/alternative");
    }
    assert Multipart("multipart/alternative", root, header).text == a + Separator + b;
  }

  /**
   * An HTML file sent as an attachment next to a text section is listed as the
   * only attachment and does not become the HTML body.
   */
  lemma AttachedHtmlFile(text: seq<Byte>, page: seq<Byte>, header: Headers.Header)
    requires text != page && page != []
    ensures var section := Leaf("text/plain", "", "", text);
      var file := Leaf("text/html", Attachment, "test.html", page);
      var body := Multipart("multipart/mixed", Container("multipart/mixed", [section, file]), header);
      body.text == text && body.html == [] && body.attachments == [file] && body.inlines == []
  {
    var section := Leaf("text/plain", "", "", text);
    var file := Leaf("text/html", Attachment, "test.html", page);
    var root := Container("multipart/mixed", [section, file]);
    assert SelectText("multipart/mixed", root) == text by {
      FlatOrders(root);
      FilterCons(root, [section, file], IsTextBody);
      FilterCons(section, [file], IsTextBody);
      FilterCons(file, [], IsTextBody);
      assert Contents([section]) == [text];
      assert IsMultipart("multipart/mixed");
    }
    assert SelectHtml(root) == [] by {
      FlatOrders(root);
    }
    assert Classify(root, Attachment, text, []) == [file] by {
      FlatOrders(root);
      var attached := Listed(Attachment, text, []);
      FilterCons(root, [section, file], attached);
      FilterCons(section, [file], attached);
      FilterCons(file, [], attached);
    }
    assert Classify(root, Inline, text, []) == [] by {
      FlatOrders(root);
      var inline := Listed(Inline, text, []);
      FilterCons(root, [section, file], inline);
      FilterCons(section, [file], inline);
      FilterCons(file, [], inline);
    }
    assert Multipart("multipart/mixed", root, header) == MIMEBody(text, [], Some(root), [file], [], header);
  }

  /** A related message: a text section, an HTML section and an inline image, in that order. */
  function RelatedMessage(text: seq<Byte>, page: seq<Byte>, image: seq<Byte>): Part
  {
    Container("multipart/related", [Leaf("text/plain", "", "", text), Leaf("text/html", "", "", page),
                                    Leaf("image/png", Inline, "favicon.png", image)])
  }

  lemma RelatedMessageBodies(text: seq<Byte>, page: seq<Byte>, image: seq<Byte>)
    ensures SelectText("multipart/related", RelatedMessage(text, page, image)) == text
    ensures SelectHtml(RelatedMessage(text, page, image)) == page
  {
    var root := RelatedMessage(text, page, image);
    var section, html, icon := root.children[0], root.children[1], root.children[2];
    assert root.children == [section, html, icon];
    assert SelectText("multipart/related", root) == text by {
      FlatOrders(root);
      FilterCons(root, [section, html, icon], IsTextBody);
      FilterCons(section, [html, icon], IsTextBody);
      FilterCons(html, [icon], IsTextBody);
      FilterCons(icon, [], IsTextBody);
      assert Contents([section]) == [text];
      assert IsMultipart("multipart/related");
    }
    assert SelectHtml(root) == page by {
      FlatOrders(root);
      assert FirstIndex(BreadthOrder(root), IsHtmlBody) == 2;
    }
  }

  lemma RelatedMessageLists(text: seq<Byte>, page: seq<Byte>, image: seq<Byte>)
    requires image != text && image != page
    ensures var root := RelatedMessage(text, page, image);
      && Classify(root, Attachment, text, page) == []
      && Classify(root, Inline, text, page) == [root.children[2]]
  {
    var root := RelatedMessage(text, page, image);
    var section, html, icon := root.children[0], root.children[1], root.children[2];
    assert root.children == [section, html, icon];
    FlatOrders(root);
    assert Classify(root, Attachment, text, page) == [] by {
      var attached := Listed(Attachment, text, page);
      FilterCons(root, [section, html, icon], attached);
      FilterCons(section, [html, icon], attached);
      FilterCons(html, [icon], attached);
      FilterCons(icon, [], attached);
    }
    assert Classify(root, Inline, text, page) == [icon] by {
      var inline := Listed(Inline, text, page);
      FilterCons(root, [section, html, icon], inline);
      FilterCons(section, [html, icon], inline);
      FilterCons(html, [icon], inline);
      FilterCons(icon, [], inline);
    }
  }

  /**
   * An inline image beside the text and HTML sections is listed as the only
   * inline and there are no attachments.
   */
  lemma InlineImage(text: seq<Byte>, page: seq<Byte>, image: seq<Byte>, header: Headers.Header)
    requires image != text && image != page
    ensures var icon := Leaf("image/png", Inline, "favicon.png", image);
      var body := Multipart("multipart/related", RelatedMessage(text, page, image), header);
      body.text == text && body.html == page && body.inlines == [icon] && body.attachments == []
  {
    RelatedMessageBodies(text, page, image);
    RelatedMessageLists(text, page, image);
  }

  /** A message with no text section drops an empty attachment. */
  lemma EmptyAttachmentDropped(page: seq<Byte>, header: Headers.Header)
    ensures var html := Leaf("text/html", "", "", page);
      var empty := Leaf("application/octet-stream", Attachment, "empty.bin", []);
      var body := Multipart("multipart/mixed", Container("multipart/mixed", [html, empty]), header);
      body.text == [] && body.attachments == []
  {
    var html := Leaf("text/html", "", "", page);
    var empty := Leaf("application/octet-stream", Attachment, "empty.bin", []);
    var root := Container("multipart/mixed", [html, empty]);
    assert SelectText("multipart/mixed", root) == [] by {
      FlatOrders(root);
      FilterCons(root, [html, empty], IsTextBody);
      FilterCons(html, [empty], IsTextBody);
      FilterCons(empty, [], IsTextBody);
      assert IsMultipart("multipart/mixed");
    }
    var h := SelectHtml(root);
    assert Classify(root, Attachment, [], h) == [] by {
      FlatOrders(root);
      var attached := Listed(Attachment, [], h);
      FilterCons(root, [html, empty], attached);
      FilterCons(html, [empty], attached);
      FilterCons(empty, [], attached);
    }
  }
}
