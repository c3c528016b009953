/**
 * What the body parser promises: which media types are multipart, how a
 * single-part body is placed, exactly when parsing fails, and how the text,
 * HTML, attachment and inline selections relate to the part tree.
 */
module MailProperties {
  import opened Outcomes
  import opened MimeTree
  import opened Mail

  /** Exactly four media types are multipart. */
  lemma IsMultipartExactly(m: string)
    ensures IsMultipart(m) <==>
      m in {"multipart/alternative", "multipart/mixed", "multipart/related", "multipart/signed"}
  {
  }

  /** Other multipart subtypes, the truncated alternative type and "" are single-part. */
  lemma OtherTypesAreSinglePart()
    ensures !IsMultipart("") && !IsMultipart("text/plain") && !IsMultipart("text/html")
    ensures !IsMultipart("multipart/report") && !IsMultipart("multipart/digest")
    ensures !IsMultipart("multipart/parallel") && !IsMultipart("multipart/altern")
  {
  }

  /**
   * A single-part body goes whole to the HTML body when its media type is
   * text/html and to the text body otherwise; no tree is built and nothing
   * is listed. A body that does not decode is an error.
   */
  lemma SinglePartBody(msg: Message, codecs: Codecs)
    ensures !IsMultipart(MediaTypeOf(msg, codecs)) && DecodedBody(msg, codecs).Failure? ==>
      Parse(msg, codecs) == Failure(DecodeFailed(DecodedBody(msg, codecs).error))
    ensures !IsMultipart(MediaTypeOf(msg, codecs)) && DecodedBody(msg, codecs).Success? ==>
      var decoded := DecodedBody(msg, codecs).value;
      var r := Parse(msg, codecs);
      && r.Success?
      && r.value.root == None && r.value.attachments == [] && r.value.inlines == []
      && r.value.header == msg.header
      && (MediaTypeOf(msg, codecs) == "text/html" ==> r.value.html == decoded && r.value.text == [])
      && (MediaTypeOf(msg, codecs) != "text/html" ==> r.value.text == decoded && r.value.html == [])
  {
  }

  /** A Content-Type that is absent or does not parse gives media type "": the body is plain text. */
  lemma UnparsedContentTypeIsText(msg: Message, codecs: Codecs)
    ensures MediaTypeOf(msg, codecs) == "" && DecodedBody(msg, codecs).Success? ==>
      Parse(msg, codecs) == Success(MIMEBody(DecodedBody(msg, codecs).value, [], None, [], [], msg.header))
  {
    OtherTypesAreSinglePart();
  }

  /**
   * Parsing fails exactly when a single-part body does not decode, or a
   * multipart Content-Type does not parse, lacks a boundary or cannot be
   * split into parts.
   */
  lemma ParseFailsExactlyWhen(msg: Message, codecs: Codecs)
    ensures Parse(msg, codecs).Failure? <==>
      (if !IsMultipart(MediaTypeOf(msg, codecs)) then DecodedBody(msg, codecs).Failure?
       else (ParsedContentType(msg, codecs).err.Some?
             || Boundary(ParsedContentType(msg, codecs).params) == ""
             || Parts(msg, codecs).Failure?))
  {
  }

  /** The multipart/ prefix check after a multipart type was recognised never fails. */
  lemma PrefixCheckNeverFails(msg: Message, codecs: Codecs)
    ensures !(Parse(msg, codecs).Failure? && Parse(msg, codecs).error.UnknownMediaType?)
  {
    var mediatype := MediaTypeOf(msg, codecs);
    if IsMultipart(mediatype) {
      assert HasPrefix(ParsedContentType(msg, codecs).mediatype, "multipart/");
    }
  }

  /**
   * A parsed multipart message has as root a part of its own media type, with
   * no disposition and no content, whose children are the split parts; its
   * body is assembled from that tree.
   */
  lemma MultipartBody(msg: Message, codecs: Codecs)
    ensures IsMultipart(MediaTypeOf(msg, codecs)) && Parse(msg, codecs).Success? ==>
      && Parts(msg, codecs).Success?
      && var mediatype := MediaTypeOf(msg, codecs);
         var root := Part(mediatype, "", "", [], Parts(msg, codecs).value);
         Parse(msg, codecs) == Success(Multipart(mediatype, root, msg.header))
  {
  }

  /** Only multipart messages have a root. */
  lemma RootOnlyForMultipart(msg: Message, codecs: Codecs)
    ensures Parse(msg, codecs).Success? ==>
      (Parse(msg, codecs).value.root.Some? <==> IsMultipart(MediaTypeOf(msg, codecs)))
  {
    if IsMultipart(MediaTypeOf(msg, codecs)) {
      MultipartBody(msg, codecs);
    } else {
      SinglePartBody(msg, codecs);
    }
  }

  /**
   * The text body of every multipart message, multipart/alternative included,
   * is the content of every non-attachment text/plain part in pre-order,
   * with the separator between consecutive parts; no such part gives "".
   */
  lemma MultipartText(mediatype: string, root: Part, header: Headers.Header)
    requires IsMultipart(mediatype)
    ensures var matches := DepthMatchAll(root, IsTextBody);
      var text := Multipart(mediatype, root, header).text;
      && text == Join(Contents(matches))
      && (matches == [] ==> text == [])
      && (|matches| == 1 ==> text == matches[0].content)
      && (|matches| > 1 ==> text == matches[0].content + Separator + Join(Contents(matches[1..])))
  {
    var matches := DepthMatchAll(root, IsTextBody);
    if |matches| > 1 {
      var cs := Contents(matches);
      assert cs == [cs[0]] + cs[1..];
      assert cs[1..] == Contents(matches[1..]);
      JoinCons(cs[0], cs[1..]);
    }
  }

  /**
   * The HTML body is the content of the first non-attachment text/html part in
   * level order, or empty when there is none; so an attached HTML file never
   * becomes the HTML body.
   */
  lemma MultipartHtml(mediatype: string, root: Part, header: Headers.Header)
    ensures var order := LevelOrder([root]);
      var html := Multipart(mediatype, root, header).html;
      (html == [] && forall i :: 0 <= i < |order| ==> !IsHtmlBody(order[i]))
      || (exists i :: 0 <= i < |order| && order[i].contentType == "text/html"
                      && order[i].disposition != Attachment && order[i].content == html
                      && forall j :: 0 <= j < i ==> !IsHtmlBody(order[j]))
  {
    QueueOrderIsLevelOrder([root]);
  }

  /**
   * Attachments and inlines are the parts carrying that disposition whose
   * content is neither the text nor the HTML body, in level order; no part is
   * in both lists.
   */
  lemma ListedParts(mediatype: string, root: Part, header: Headers.Header)
    ensures var body := Multipart(mediatype, root, header);
      forall p :: p in body.attachments <==>
        p in LevelOrder([root]) && p.disposition == Attachment && p.content != body.text && p.content != body.html
    ensures var body := Multipart(mediatype, root, header);
      forall p :: p in body.inlines <==>
        p in LevelOrder([root]) && p.disposition == Inline && p.content != body.text && p.content != body.html
    ensures var body := Multipart(mediatype, root, header);
      body.attachments == Filter(LevelOrder([root]), Listed(Attachment, body.text, body.html))
    ensures var body := Multipart(mediatype, root, header);
      body.inlines == Filter(LevelOrder([root]), Listed(Inline, body.text, body.html))
    ensures var body := Multipart(mediatype, root, header);
      forall p :: !(p in body.attachments && p in body.inlines)
  {
    QueueOrderIsLevelOrder([root]);
  }

  /** With no text body, an attachment or inline with empty content is never listed. */
  lemma EmptyPartsDroppedWithoutText(mediatype: string, root: Part, header: Headers.Header)
    requires Multipart(mediatype, root, header).text == []
    ensures var body := Multipart(mediatype, root, header);
      forall p :: p in body.attachments + body.inlines ==> p.content != []
  {
  }

  /**
   * The surrogate key reads only the decoded From, To, Cc and Date fields: two
   * bodies that agree on those build the same surrogate Message-Id.
   */
  lemma SurrogateKeyReadsFourFields(a: MIMEBody, b: MIMEBody, decodeHeader: string -> string)
    requires a.GetHeader("From", decodeHeader) == b.GetHeader("From", decodeHeader)
    requires a.GetHeader("To", decodeHeader) == b.GetHeader("To", decodeHeader)
    requires a.GetHeader("Cc", decodeHeader) == b.GetHeader("Cc", decodeHeader)
    requires a.GetHeader("Date", decodeHeader) == b.GetHeader("Date", decodeHeader)
    ensures a.SurrogateKey(decodeHeader) == b.SurrogateKey(decodeHeader)
  {
  }
}
