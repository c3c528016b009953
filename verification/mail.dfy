/**
 * Body assembly for a parsed mail message: the decision between a single-part
 * and a multipart body, the selection of the plain-text and HTML bodies from
 * the part tree, the classification of attachments and inlines, and the
 * header accessors GetHeader and MessageId.
 *
 * Parsing a Content-Type value, transfer/charset decoding of a body, splitting
 * a multipart body into a part tree, decoding encoded words in header values
 * and SHA-256 are done by collaborators that this module receives as
 * functions.
 */
module Mail {
  import opened Outcomes
  import opened MimeTree
  import opened Headers
  import opened MessageIds

  /**
   * A parsed Content-Type value: the media type without parameters, the
   * parameters, and the error reported when the value did not parse (the
   * media type is then usually "").
   */
  datatype MediaType = MediaType(mediatype: string, params: map<string, string>, err: Option<string>)

  /**
   * The collaborators the body parser calls:
   * parseMediaType(contentType);
   * decodeSection(transferEncoding, contentType, mediatype, body), which may fail;
   * parseParts(body, boundary), the children of the root part, which may fail.
   */
  datatype Codecs = Codecs(
    parseMediaType: string -> MediaType,
    decodeSection: (string, string, string, seq<Byte>) -> Result<seq<Byte>, string>,
    parseParts: (seq<Byte>, string) -> Result<seq<Part>, string>)

  /** A message as framing hands it over: its header fields and its raw body. */
  datatype Message = Message(header: Header, body: seq<Byte>)

  /** Why a message body could not be parsed; no body is returned with an error. */
  datatype ParseError =
    | DecodeFailed(cause: string)          // the single-part body did not decode
    | BadMediaType(cause: string)          // the multipart Content-Type did not parse
    | UnknownMediaType(mediatype: string)  // a media type outside multipart/*
    | MissingBoundary                      // no or empty boundary parameter
    | PartsFailed(cause: string)           // splitting into parts failed

  /** Written between consecutive text parts: line feed, two hyphens, line feed ("\n--\n"). */
  const Separator: seq<Byte> := [0x0A, 0x2D, 0x2D, 0x0A]

  const Attachment: string := "attachment"
  const Inline: string := "inline"

  /**
   * The parsed body: the plain-text body, the HTML body, the root of the part
   * tree (multipart messages only), the parts offered as attachments and those
   * shown inline, and the message's header.
   */
  datatype MIMEBody = MIMEBody(
    text: seq<Byte>,
    html: seq<Byte>,
    root: Option<Part>,
    attachments: seq<Part>,
    inlines: seq<Part>,
    header: Header)
  {
    /** A header field's value with its encoded words decoded; a missing field reads as "". */
    function GetHeader(name: string, decodeHeader: string -> string): (value: string)
      ensures CanonicalKey(name) !in header ==> value == decodeHeader("")
      ensures CanonicalKey(name) in header && header[CanonicalKey(name)] != [] ==>
        value == decodeHeader(header[CanonicalKey(name)][0])
    {
      decodeHeader(Get(header, name))
    }

    /** The key a surrogate id is hashed from: From, To, Cc and Date, decoded, back to back. */
    function SurrogateKey(decodeHeader: string -> string): string
    {
      GetHeader("From", decodeHeader) + GetHeader("To", decodeHeader)
        + GetHeader("Cc", decodeHeader) + GetHeader("Date", decodeHeader)
    }

    method GenerateMessageId(decodeHeader: string -> string, sha256: string -> Digest) returns (id: string)
      ensures id == AutoMessageId(sha256(SurrogateKey(decodeHeader)))
      ensures |id| == 94
    {
      var key := "";
      var tld := Domain;
      key := key + GetHeader("FROM", decodeHeader);
      assert key == GetHeader("From", decodeHeader) by {
        ShoutedNamesReadSameFields(header);
      }
      key := key + GetHeader("TO", decodeHeader);
      key := key + GetHeader("CC", decodeHeader);
      key := key + GetHeader("DATE", decodeHeader);
      assert key == SurrogateKey(decodeHeader) by {
        ShoutedNamesReadSameFields(header);
      }
      var digest := sha256(key);
      var hex := HexEncode(digest);
      id := "<" + hex + AutoSuffix + tld + ">";
    }

    method MessageId(decodeHeader: string -> string, sha256: string -> Digest) returns (id: string)
      ensures var given := GetHeader("Message-Id", decodeHeader);
        given != "" ==> id == given
      ensures var given := GetHeader("Message-Id", decodeHeader);
        given == "" ==> id == AutoMessageId(sha256(SurrogateKey(decodeHeader)))
      ensures id != ""
    {
      var messageId := GetHeader("Message-Id", decodeHeader);
      if messageId != "" {
        return messageId;
      }
      id := GenerateMessageId(decodeHeader, sha256);
    }
  }

  /** The upper-case names generateMessageId reads name the From, To, Cc and Date fields. */
  lemma ShoutedNamesReadSameFields(h: Header)
    ensures Get(h, "FROM") == Get(h, "From") && Get(h, "TO") == Get(h, "To")
    ensures Get(h, "CC") == Get(h, "Cc") && Get(h, "DATE") == Get(h, "Date")
  {
    ShoutedNamesAreCanonicalised();
    CanonicalNamesAreKept();
  }

  lemma ShoutedNamesAreCanonicalised()
    ensures CanonicalKey("FROM") == "From" && CanonicalKey("TO") == "To"
    ensures CanonicalKey("CC") == "Cc" && CanonicalKey("DATE") == "Date"
  {
  }

  lemma CanonicalNamesAreKept()
    ensures CanonicalKey("From") == "From" && CanonicalKey("To") == "To"
    ensures CanonicalKey("Cc") == "Cc" && CanonicalKey("Date") == "Date"
  {
  }

  /** The four multipart media types parsed as a part tree; every other type is a single part. */
  function IsMultipart(mediatype: string): (b: bool)
    ensures b ==> HasPrefix(mediatype, "multipart/")
    ensures b ==> mediatype != "multipart/altern"
  {
    match mediatype
    case "multipart/alternative" => true
    case "multipart/mixed" => true
    case "multipart/related" => true
    case "multipart/signed" => true
    case _ => false
  }

  predicate HasPrefix(s: string, prefix: string)
  {
    |prefix| <= |s| && s[..|prefix|] == prefix
  }

  /** A part that may become the plain-text body. */
  predicate IsTextBody(p: Part)
  {
    p.contentType == "text/plain" && p.disposition != Attachment
  }

  /** A part that may become the HTML body. */
  predicate IsHtmlBody(p: Part)
  {
    p.contentType == "text/html" && p.disposition != Attachment
  }

  /** A part listed under `disposition`: it carries it and is neither body. */
  predicate IsListed(p: Part, disposition: string, text: seq<Byte>, html: seq<Byte>)
  {
    p.disposition == disposition && p.content != html && p.content != text
  }

  /** `IsListed` as a matcher over parts. */
  function Listed(disposition: string, text: seq<Byte>, html: seq<Byte>): Part -> bool
  {
    p => IsListed(p, disposition, text, html)
  }

  function Contents(ps: seq<Part>): seq<seq<Byte>>
  {
    seq(|ps|, i requires 0 <= i < |ps| => ps[i].content)
  }

  /** The chunks with the separator between each two consecutive ones. */
  function Join(chunks: seq<seq<Byte>>): seq<Byte>
    decreases |chunks|
  {
    if |chunks| == 0 then []
    else if |chunks| == 1 then chunks[0]
    else Join(chunks[..|chunks| - 1]) + Separator + chunks[|chunks| - 1]
  }

  /** Appending a chunk adds a separator only when something came before it. */
  lemma JoinSnoc(chunks: seq<seq<Byte>>, c: seq<Byte>)
    ensures Join(chunks + [c]) == if chunks == [] then c else Join(chunks) + Separator + c
  {
    assert (chunks + [c])[..|chunks|] == chunks;
  }

  /** Read from the front: the first chunk, then a separator before each later chunk. */
  lemma {:induction false} JoinCons(c: seq<Byte>, rest: seq<seq<Byte>>)
    ensures Join([c] + rest) == if rest == [] then c else c + Separator + Join(rest)
    decreases |rest|
  {
    if |rest| > 1 {
      var init, last := rest[..|rest| - 1], rest[|rest| - 1];
      assert rest == init + [last];
      assert [c] + rest == ([c] + init) + [last];
      JoinSnoc([c] + init, last);
      JoinCons(c, init);
      JoinSnoc(init, last);
    } else if |rest| == 1 {
      assert [c] + rest == [c] + [rest[0]];
      JoinSnoc([c], rest[0]);
    }
  }

  /** The length of a join: the chunks' lengths plus one separator per gap. */
  function TotalLength(chunks: seq<seq<Byte>>): nat
    decreases |chunks|
  {
    if chunks == [] then 0 else |chunks[0]| + TotalLength(chunks[1..])
  }

  lemma {:induction false} JoinLength(chunks: seq<seq<Byte>>)
    ensures |Join(chunks)| == TotalLength(chunks) + if chunks == [] then 0 else |Separator| * (|chunks| - 1)
    decreases |chunks|
  {
    if chunks != [] {
      assert chunks == [chunks[0]] + chunks[1..];
      JoinCons(chunks[0], chunks[1..]);
      JoinLength(chunks[1..]);
    }
  }

  /**
   * The plain-text body of a multipart message. The first branch compares
   * against a truncated media type that no multipart type equals, so every
   * multipart message, multipart/alternative included, joins all its
   * pre-order text parts.
   */
  function SelectText(mediatype: string, root: Part): (text: seq<Byte>)
    ensures IsMultipart(mediatype) ==> text == Join(Contents(DepthMatchAll(root, IsTextBody)))
  {
    if mediatype == "multipart/altern" then
      match BreadthMatchFirst(root, IsTextBody)
      case Some(p) => p.content
      case None => []
    else
      Join(Contents(DepthMatchAll(root, IsTextBody)))
  }

  /** The HTML body of a multipart message: the first HTML part in level order, or nothing. */
  function SelectHtml(root: Part): (html: seq<Byte>)
    ensures var order := BreadthOrder(root);
      (html == [] && forall i :: 0 <= i < |order| ==> !IsHtmlBody(order[i]))
      || (exists i :: 0 <= i < |order| && IsHtmlBody(order[i]) && order[i].content == html
                      && forall j :: 0 <= j < i ==> !IsHtmlBody(order[j]))
  {
    match BreadthMatchFirst(root, IsHtmlBody)
    case Some(p) => p.content
    case None => []
  }

  /** The parts listed under `disposition`, in level order. */
  function Classify(root: Part, disposition: string, text: seq<Byte>, html: seq<Byte>): (listed: seq<Part>)
    ensures forall p :: p in listed <==>
      p in BreadthOrder(root) && p.disposition == disposition && p.content != text && p.content != html
  {
    BreadthMatchAll(root, Listed(disposition, text, html))
  }

  /** The body of a single-part message whose content decoded to `decoded`. */
  function Monopart(mediatype: string, decoded: seq<Byte>, header: Header): MIMEBody
  {
    if mediatype == "text/html" then MIMEBody([], decoded, None, [], [], header)
    else MIMEBody(decoded, [], None, [], [], header)
  }

  /** The body of a multipart message whose tree is rooted at `root`. */
  function Multipart(mediatype: string, root: Part, header: Header): MIMEBody
  {
    var text := SelectText(mediatype, root);
    var html := SelectHtml(root);
    MIMEBody(text, html, Some(root), Classify(root, Attachment, text, html), Classify(root, Inline, text, html), header)
  }

  function ContentType(msg: Message): string
  {
    Get(msg.header, "Content-Type")
  }

  /** The message's Content-Type, parsed. */
  function ParsedContentType(msg: Message, codecs: Codecs): MediaType
  {
    codecs.parseMediaType(ContentType(msg))
  }

  /** The media type the message's Content-Type names ("" when it does not parse). */
  function MediaTypeOf(msg: Message, codecs: Codecs): string
  {
    ParsedContentType(msg, codecs).mediatype
  }

  /** The whole body decoded as a single part. */
  function DecodedBody(msg: Message, codecs: Codecs): Result<seq<Byte>, string>
  {
    codecs.decodeSection(Get(msg.header, "Content-Transfer-Encoding"), ContentType(msg), MediaTypeOf(msg, codecs), msg.body)
  }

  /** The value of the boundary parameter, "" when it is absent. */
  function Boundary(params: map<string, string>): string
  {
    if "boundary" in params then params["boundary"] else ""
  }

  /** The children of the root part: the body split at the Content-Type's boundary. */
  function Parts(msg: Message, codecs: Codecs): Result<seq<Part>, string>
  {
    codecs.parseParts(msg.body, Boundary(ParsedContentType(msg, codecs).params))
  }

  /** What parsing a message's body yields. */
  function Parse(msg: Message, codecs: Codecs): Result<MIMEBody, ParseError>
  {
    var mediatype := MediaTypeOf(msg, codecs);
    if !IsMultipart(mediatype) then
      match DecodedBody(msg, codecs)
      case Failure(e) => Failure(DecodeFailed(e))
      case Success(decoded) => Success(Monopart(mediatype, decoded, msg.header))
    else
      var parsed := ParsedContentType(msg, codecs);
      if parsed.err.Some? then Failure(BadMediaType(parsed.err.value))
      else if !HasPrefix(parsed.mediatype, "multipart/") then Failure(UnknownMediaType(parsed.mediatype))
      else if Boundary(parsed.params) == "" then Failure(MissingBoundary)
      else
        match Parts(msg, codecs)
        case Failure(e) => Failure(PartsFailed(e))
        case Success(children) =>
          Success(Multipart(parsed.mediatype, Part(parsed.mediatype, "", "", [], children), msg.header))
  }

  /**
   * Assembles the plain-text body of a multipart message: the first text part
   * in level order for the truncated media type, otherwise every text part in
   * pre-order, appended one by one with the separator before all but the first.
   */
  method CollectText(mediatype: string, root: Part) returns (text: seq<Byte>)
    ensures text == SelectText(mediatype, root)
  {
    text := [];
    if mediatype == "multipart/altern" {
      var first := BreadthMatchFirst(root, IsTextBody);
      if first.Some? {
        text := first.value.content;
      }
    } else {
      var matches := DepthMatchAll(root, IsTextBody);
      for i := 0 to |matches|
        invariant text == Join(Contents(matches[..i]))
      {
        assert Contents(matches[..i + 1]) == Contents(matches[..i]) + [matches[i].content];
        JoinSnoc(Contents(matches[..i]), matches[i].content);
        if i > 0 {
          text := text + Separator;
        }
        text := text + matches[i].content;
      }
      assert matches[..|matches|] == matches;
    }
  }

  /** Parses the body of a message into its text, HTML, part tree, attachments and inlines. */
  method ParseMIMEBody(msg: Message, codecs: Codecs) returns (r: Result<MIMEBody, ParseError>)
    ensures r == Parse(msg, codecs)
  {
    var ctype := Get(msg.header, "Content-Type");
    var mediatype := codecs.parseMediaType(ctype).mediatype;

    if !IsMultipart(mediatype) {
      var decoded := codecs.decodeSection(Get(msg.header, "Content-Transfer-Encoding"), ctype, mediatype, msg.body);
      if decoded.Failure? {
        return Failure(DecodeFailed(decoded.error));
      }
      var text: seq<Byte>, html: seq<Byte> := [], [];
      if mediatype == "text/html" {
        html := decoded.value;
      } else {
        text := decoded.value;
      }
      return Success(MIMEBody(text, html, None, [], [], msg.header));
    }

    var parsed := codecs.parseMediaType(ctype);
    if parsed.err.Some? {
      return Failure(BadMediaType(parsed.err.value));
    }
    mediatype := parsed.mediatype;
    if !HasPrefix(mediatype, "multipart/") {
      return Failure(UnknownMediaType(mediatype));
    }
    var boundary := Boundary(parsed.params);
    if boundary == "" {
      return Failure(MissingBoundary);
    }
    var children := codecs.parseParts(msg.body, boundary);
    if children.Failure? {
      return Failure(PartsFailed(children.error));
    }
    var root := Part(mediatype, "", "", [], children.value);

    var text := CollectText(mediatype, root);

    var html: seq<Byte> := [];
    var first := BreadthMatchFirst(root, IsHtmlBody);
    if first.Some? {
      html := first.value.content;
    }

    var attachments := Classify(root, Attachment, text, html);
    var inlines := Classify(root, Inline, text, html);
    r := Success(MIMEBody(text, html, Some(root), attachments, inlines, msg.header));
  }
}
