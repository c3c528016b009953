# enmime message bodies, modelled in Dafny

This project models the body-assembly core of enmime's `mail.go`.
`ParseMIMEBody` takes a parsed mail message and builds a `MIMEBody`. That value holds:
- the plain-text body;
- the HTML body;
- the root of the MIME part tree (multipart messages only);
- the parts offered as attachments;
- the parts shown inline;
- the message header.

The model also covers the header accessors built on that value: `GetHeader`, `MessageId` and the surrogate id `generateMessageId` builds.

Files:

- `outcomes.dfy` (`Outcomes`): `Option` and `Result`.
- `mime_tree.dfy` (`MimeTree`): the MIME part as an inductive value. A part has a content type, disposition, file name, content bytes and ordered children. The file also defines the tree traversals the matchers use:
  - pre-order (depth first);
  - breadth-first order as a queue produces it, proved equal to level order;
  - matchers as filters and first-index searches over these orders.
- `headers.dfy` (`Headers`): the header map and the lookup `Header.Get`. Lookup puts the field name into canonical MIME form first, so "FROM" and "From" read the same field.
- `message_id.dfy` (`MessageIds`): lower-case hex encoding with its decoder, and the shape of the surrogate Message-Id.
- `mail.dfy` (`Mail`):
  - `IsMultipart`, and `ParseMIMEBody` as a method with its `+=` text loop.
  - The specification function `Parse` the method is proved equal to.
  - The selection functions for text, HTML, attachments and inlines.
  - The `MIMEBody` value with `GetHeader`, `GenerateMessageId` and `MessageId`.
- `mail_properties.dfy` (`MailProperties`): what the parser promises, stated over all messages and all part trees.
- `mail_examples.dfy` (`MailExamples`): part trees shaped like the test messages, with the exact bodies and lists the parser gives them.

Decisions:
- **Bytes and strings.** Body text, HTML and part contents are byte strings (`seq<Byte>`), because Go compares `string(p.Content())` with `Text` and `Html` byte for byte. Header values are character strings.
- **Collaborators are parameters.** The parser receives as functions (a `Codecs` value):
  - the Content-Type parser (`mime.ParseMediaType`);
  - the body decoder (`decodeSection`);
  - the splitter that produces the root's children (`parseParts`).

  `GetHeader` and `MessageId` receive the encoded-word decoder (`decodeHeader`) and the SHA-256 digest as functions.

`mail.go:84` compares the media type with the truncated literal `"multipart/altern"`. Every media type that reaches that line has passed `IsMultipart`, and none of the four multipart types equals that string. So the "first text part in level order" branch (`mail.go:85-90`) never runs. Every multipart message, `multipart/alternative` included, joins all of its text parts. The model keeps the branch as written, in both `SelectText` and `CollectText`. `IsMultipart`'s contract and `MailProperties.MultipartText` show the branch is unreachable. `MailExamples.AlternativesAreJoined` shows that two alternatives are joined rather than the first one winning.

A monopart `text/html` message fills only `Html`, and `Text` stays empty (`mail.go:55-59`). The test at `mail_test.go:43` expects `Text` to contain the HTML message's text. That contradicts the code. The model follows the code (`MailProperties.SinglePartBody`).

## Model

| member | source | states |
|---|---|---|
| Mail.IsMultipart | mail.go:25-35 | a media type that is multipart starts with "multipart/" and is never the truncated "multipart/altern" |
| MailProperties.IsMultipartExactly | mail.go:25-35 | a media type is multipart exactly when it is one of multipart/alternative, mixed, related or signed |
| MailProperties.OtherTypesAreSinglePart | mail.go:25-35 | "", text/plain, text/html, other multipart subtypes and "multipart/altern" are single-part |
| Mail.ParseMIMEBody | mail.go:41-126 | the imperative parser returns exactly what the specification `Parse` gives, body or error, for every message and collaborators |
| Mail.CollectText | mail.go:83-102 | the text accumulated with `+=` in the loop equals the selected text body; the loop keeps the text equal to the join of the contents seen so far |
| Mail.SelectText | mail.go:83-102 | for every multipart media type the text body is the join of the pre-order non-attachment text/plain contents |
| Mail.SelectHtml | mail.go:104-110 | the HTML body is empty with no non-attachment text/html part in level order, else the content of the first one |
| Mail.Classify | mail.go:112-122 | a part is listed exactly when it is in the tree, carries the disposition, and its content differs from both text and HTML bodies |
| Mail.JoinSnoc | mail.go:96-101 | appending a chunk adds the separator only when a chunk came before it |
| Mail.JoinCons | mail.go:96-101 | the joined text starts with the first chunk and a separator precedes every later chunk; one chunk is itself |
| Mail.JoinLength | mail.go:96-101 | the joined text is as long as all chunks plus one separator between each consecutive pair: none leading or trailing |
| MailProperties.SinglePartBody | mail.go:46-59 | a single-part body that does not decode is an error; else text/html fills only Html, every other type only Text; no root, attachments or inlines |
| MailProperties.UnparsedContentTypeIsText | mail.go:44-58 | a message whose media type reads as "" gets its whole decoded body as Text |
| MailProperties.ParseFailsExactlyWhen | mail.go:46-81 | parsing fails exactly on a decode failure (single part), or a Content-Type parse error, empty boundary or split failure (multipart) |
| MailProperties.PrefixCheckNeverFails | mail.go:67-69 | the "multipart/" prefix check never rejects a message |
| MailProperties.MultipartBody | mail.go:61-123 | a parsed multipart message has as root a part of its media type whose children are the split parts, and its body is assembled from that tree |
| MailProperties.RootOnlyForMultipart | mail.go:42-77 | a parsed body has a root exactly when the message is multipart |
| MailProperties.MultipartText | mail.go:83-102 | every multipart text body, alternative included, is the join of all pre-order text parts: "" with none, the part alone with one, first + separator + rest otherwise |
| MailProperties.MultipartHtml | mail.go:104-110 | the HTML body is the first non-attachment text/html part in level order, or empty; an attached HTML file never becomes it |
| MailProperties.ListedParts | mail.go:112-122 | attachments and inlines are the level-order filter of parts by disposition and content; membership both ways; the lists are disjoint |
| MailProperties.EmptyPartsDroppedWithoutText | mail.go:113-122 | with an empty text body no listed part has empty content |
| MailProperties.SurrogateKeyReadsFourFields | mail.go:133-139 | two bodies whose decoded From, To, Cc and Date agree build the same surrogate key |
| Mail.MIMEBody.GetHeader | mail.go:129-131 | a field present under the canonical name gives its first value decoded; an absent field decodes "" |
| Mail.MIMEBody.GenerateMessageId | mail.go:133-145 | the id is "<" + hex of the digest of From+To+Cc+Date (decoded, read by their upper-case names) + "-auto-generated@revapost.com>", 94 characters |
| Mail.MIMEBody.MessageId | mail.go:147-152 | a non-empty Message-Id header is returned as is, otherwise the surrogate id; never empty |
| Mail.ShoutedNamesReadSameFields | mail.go:136-139 | "FROM", "TO", "CC" and "DATE" read the same fields as "From", "To", "Cc" and "Date" |
| Headers.Get | mail.go:43 | the lookup of a field whose canonical name is absent gives "" |
| Headers.CanonicalKey | mail.go:43 | the canonical name has the same length and differs from the name only in letter case |
| Headers.CanonicalKeyIdempotent | mail.go:43 | canonicalising twice changes nothing more |
| Headers.GetIgnoresCase | mail.go:136-139 | token names differing only in letter case read the same field |
| Headers.CanonicalKeyIgnoresCase | mail.go:136-139 | token names differing only in letter case have the same canonical form |
| MessageIds.HexEncode | mail.go:143 | the encoding has two lower-case hex digits per byte |
| MessageIds.HexRoundTrip | mail.go:143 | hex decoding undoes hex encoding |
| MessageIds.AutoMessageId | mail.go:140-144 | the surrogate id is 94 characters: "<", 64 hex digits, then "-auto-generated@revapost.com>" |
| MessageIds.AutoMessageIdInjective | mail.go:140-144 | distinct digests give distinct surrogate ids |
| MimeTree.PreOrder | mail.go:93-95 | the pre-order has one entry per part of the tree, starts at the root and contains every part of every child subtree |
| MimeTree.QueueOrderIsLevelOrder | mail.go:105-107 | the order a breadth-first queue visits parts in is level order, left to right |
| MimeTree.QueueOrderSplit | mail.go:113-116 | a queue's front parts are visited first, then the rest with their children queued behind |
| MimeTree.Filter | mail.go:113-122 | the matches are exactly the parts of the order that satisfy the matcher, no more than the order holds |
| MimeTree.FilterAppend | mail.go:113-122 | collecting matches keeps order: it distributes over concatenation |
| MimeTree.FirstIndex | mail.go:105-107 | the index found is the first whose part matches, or the end when none does |
| MimeTree.BreadthMatchFirst | mail.go:85-87 | the first match exists exactly when some part matches, and it is the first matching part in level order |
| MimeTree.BreadthMatchFirstIsHead | mail.go:105-122 | the first breadth-first match is the head of the list of all breadth-first matches |
| MailExamples.MixedTextSections | mail_test.go:67-76 | sections "Section one\n" and "Section two" give the text "Section one\n\n--\nSection two" |
| MailExamples.AlternativesAreJoined | mail.go:84-101 | the two text alternatives of a multipart/alternative message are joined, not the first chosen |
| MailExamples.AttachedHtmlFile | mail_test.go:120-133 | an attached test.html beside a text section is the only attachment; Html is empty and there are no inlines |
| MailExamples.InlineImage | mail_test.go:140-154 | an inline favicon.png beside text and HTML sections is the only inline; there are no attachments |
| MailExamples.EmptyAttachmentDropped | mail.go:113-116 | with no text section an attachment with empty content is not listed |

## Left out

- Content-Type parsing (`mime.ParseMediaType`) is a parameter. Its parameter syntax, and the media type it reports on a parse error, are not modelled.
- Transfer and charset decoding (`decodeSection`) is a parameter that may fail. Base64, quoted-printable and legacy charsets are not modelled.
- Splitting a multipart body at its boundary (`parseParts`, `NewMIMEPart`) is a parameter. It yields the root's children, so the tree is an input. Part headers and parent links are not modelled.
- Encoded-word decoding (`decodeHeader`) and SHA-256 are parameters. The digest is any 32-byte value.
- `io.Reader` bodies, `mail.Message` framing, error message texts and file I/O in the test helper `readMessage` are not modelled.
- The traversal helpers `BreadthMatchFirst`, `BreadthMatchAll` and `DepthMatchAll`, and the `MIMEPart` type, are not part of this model's sources. They are defined here as level-order and pre-order searches. That order agrees with `mail_test.go:351-352`.
- Headers.Get: a field name holding a non-token character is looked up exactly as written, as Go's canonical-key rule does. The multi-valued `mail.Header` is kept as a map to value lists.
- The "first alternative wins" text rule that the `"multipart/altern"` literal at `mail.go:84` seems to aim at is not modelled. The code never takes that branch.
- `mail_test.go:43` expects `Text` to be filled for a single-part HTML message. That is not a property here, because `mail.go:55-59` fills only `Html`.
