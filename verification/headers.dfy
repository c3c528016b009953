/**
 * A message's header field map and the case-insensitive lookup used to read
 * it: a field name is put in canonical form (first letter and every letter
 * after a hyphen upper case, the other letters lower case) before lookup, so
 * "FROM", "from" and "From" name the same field.
 */
module Headers {

  /** Field name in canonical form to the field's raw values, in order of appearance. */
  type Header = map<string, seq<string>>

  /** A character allowed in a field name: a token character of section 3.2.6 of RFC 7230. */
  predicate IsTokenChar(c: char)
  {
    ('a' <= c <= 'z') || ('A' <= c <= 'Z') || ('0' <= c <= '9') || c in "!#$%&'*+-.^_`|~"
  }

  /** A field name made of token characters only. */
  predicate IsTokenName(name: string)
  {
    forall i :: 0 <= i < |name| ==> IsTokenChar(name[i])
  }

  function Upper(c: char): char
  {
    if 'a' <= c <= 'z' then (c as int - 32) as char else c
  }

  function Lower(c: char): char
  {
    if 'A' <= c <= 'Z' then (c as int + 32) as char else c
  }

  /** Two characters that differ at most in ASCII letter case. */
  predicate SameIgnoringCase(a: char, b: char)
  {
    Lower(a) == Lower(b)
  }

  /** The letters of `name` cased canonically; `upper` says the previous character was a hyphen or there was none. */
  function CanonicalCase(name: string, upper: bool): (r: string)
    ensures |r| == |name|
    ensures forall i :: 0 <= i < |name| ==> SameIgnoringCase(r[i], name[i])
    decreases |name|
  {
    if name == [] then []
    else [if upper then Upper(name[0]) else Lower(name[0])] + CanonicalCase(name[1..], name[0] == '-')
  }

  /**
   * The canonical form of a field name. A name holding a character that is
   * not a token character (a space, a colon, a non-ASCII letter) is left
   * as it is.
   */
  function CanonicalKey(name: string): (key: string)
    ensures |key| == |name|
    ensures forall i :: 0 <= i < |name| ==> SameIgnoringCase(key[i], name[i])
  {
    if IsTokenName(name) then CanonicalCase(name, true) else name
  }

  /** The first value of the named field, or "" when the field is absent. */
  function Get(h: Header, name: string): (value: string)
    ensures CanonicalKey(name) !in h ==> value == ""
  {
    var key := CanonicalKey(name);
    if key in h && |h[key]| > 0 then h[key][0] else ""
  }

  lemma {:induction false} CanonicalCaseIdempotent(name: string, upper: bool)
    ensures CanonicalCase(CanonicalCase(name, upper), upper) == CanonicalCase(name, upper)
    decreases |name|
  {
    if name != [] {
      var r := CanonicalCase(name, upper);
      assert r[1..] == CanonicalCase(name[1..], name[0] == '-');
      assert (r[0] == '-') == (name[0] == '-');
      CanonicalCaseIdempotent(name[1..], name[0] == '-');
    }
  }

  /** Putting a name in canonical form twice changes nothing more. */
  lemma CanonicalKeyIdempotent(name: string)
    ensures CanonicalKey(CanonicalKey(name)) == CanonicalKey(name)
  {
    var key := CanonicalKey(name);
    if IsTokenName(name) {
      assert IsTokenName(key) by {
        forall i | 0 <= i < |key| ensures IsTokenChar(key[i]) {
          assert IsTokenChar(name[i]);
          assert SameIgnoringCase(key[i], name[i]);
        }
      }
      CanonicalCaseIdempotent(name, true);
    }
  }

  lemma {:induction false} CanonicalCaseIgnoresCase(a: string, b: string, upper: bool)
    requires |a| == |b|
    requires forall i :: 0 <= i < |a| ==> SameIgnoringCase(a[i], b[i])
    ensures CanonicalCase(a, upper) == CanonicalCase(b, upper)
    decreases |a|
  {
    if a != [] {
      assert SameIgnoringCase(a[0], b[0]);
      assert (a[0] == '-') == (b[0] == '-');
      CanonicalCaseIgnoresCase(a[1..], b[1..], a[0] == '-');
    }
  }

  /**
   * Token names that differ only in ASCII letter case have the same canonical
   * form (names with other characters are looked up exactly as written).
   */
  lemma CanonicalKeyIgnoresCase(a: string, b: string)
    requires IsTokenName(a) && |a| == |b|
    requires forall i :: 0 <= i < |a| ==> SameIgnoringCase(a[i], b[i])
    ensures CanonicalKey(a) == CanonicalKey(b)
  {
    assert IsTokenName(b) by {
      forall i | 0 <= i < |b| ensures IsTokenChar(b[i]) {
        assert IsTokenChar(a[i]) && SameIgnoringCase(a[i], b[i]);
      }
    }
    CanonicalCaseIgnoresCase(a, b, true);
  }

  /** Reading a field ignores the letter case of its name. */
  lemma GetIgnoresCase(h: Header, a: string, b: string)
    requires IsTokenName(a) && |a| == |b|
    requires forall i :: 0 <= i < |a| ==> SameIgnoringCase(a[i], b[i])
    ensures Get(h, a) == Get(h, b)
  {
    CanonicalKeyIgnoresCase(a, b);
  }
}
