/**
 * The surrogate Message-Id built when a message has none:
 * "<" + lower-case hex of a 32-byte digest + "-auto-generated@revapost.com>".
 */
module MessageIds {
  import opened MimeTree

  /** A SHA-256 digest: exactly 32 bytes. */
  type Digest = d: seq<Byte> | |d| == 32 witness seq(32, _ => 0)

  /** The domain written after the digest in a surrogate id. */
  const Domain: string := "revapost.com"

  const AutoSuffix: string := "-auto-generated@"

  /** A lower-case hex digit, as Go's hex encoding writes them. */
  predicate IsHexDigit(c: char)
  {
    '0' <= c <= '9' || 'a' <= c <= 'f'
  }

  function HexDigit(n: nat): (c: char)
    requires n < 16
    ensures IsHexDigit(c)
  {
    if n < 10 then ('0' as int + n) as char else ('a' as int + n - 10) as char
  }

  /** Two lower-case hex digits per byte, high nibble first. */
  function HexEncode(d: seq<Byte>): (s: string)
    ensures |s| == 2 * |d|
    ensures forall i :: 0 <= i < |s| ==> IsHexDigit(s[i])
    decreases |d|
  {
    if d == [] then ""
    else [HexDigit(d[0] as int / 16), HexDigit(d[0] as int % 16)] + HexEncode(d[1..])
  }

  function HexValue(c: char): (v: nat)
    requires IsHexDigit(c)
    ensures v < 16 && HexDigit(v) == c
  {
    if '0' <= c <= '9' then c as int - '0' as int else c as int - 'a' as int + 10
  }

  function HexDecode(s: string): (d: seq<Byte>)
    requires |s| % 2 == 0
    requires forall i :: 0 <= i < |s| ==> IsHexDigit(s[i])
    ensures |d| == |s| / 2
    decreases |s|
  {
    if s == "" then []
    else [(16 * HexValue(s[0]) + HexValue(s[1])) as Byte] + HexDecode(s[2..])
  }

  /** Hex decoding undoes hex encoding. */
  lemma {:induction false} HexRoundTrip(d: seq<Byte>)
    ensures HexDecode(HexEncode(d)) == d
    decreases |d|
  {
    if d != [] {
      var s := HexEncode(d);
      var b := d[0] as int;
      var hi, lo := b / 16, b % 16;
      assert s[0] == HexDigit(hi) && s[1] == HexDigit(lo);
      HexValueOfDigit(hi);
      HexValueOfDigit(lo);
      assert 16 * hi + lo == b;
      assert s[2..] == HexEncode(d[1..]);
      HexRoundTrip(d[1..]);
    }
  }

  lemma HexValueOfDigit(n: nat)
    requires n < 16
    ensures HexValue(HexDigit(n)) == n
  {
  }

  /** The surrogate id built from a digest. */
  function AutoMessageId(digest: Digest): (id: string)
    ensures |id| == 94
    ensures id[0] == '<' && id[93] == '>'
    ensures forall i :: 1 <= i < 65 ==> IsHexDigit(id[i])
    ensures id[65..] == AutoSuffix + Domain + ">"
  {
    "<" + HexEncode(digest) + AutoSuffix + Domain + ">"
  }

  /** Distinct digests give distinct surrogate ids. */
  lemma AutoMessageIdInjective(a: Digest, b: Digest)
    requires AutoMessageId(a) == AutoMessageId(b)
    ensures a == b
  {
    assert AutoMessageId(a)[1..65] == HexEncode(a);
    assert AutoMessageId(b)[1..65] == HexEncode(b);
    HexRoundTrip(a);
    HexRoundTrip(b);
  }
}
