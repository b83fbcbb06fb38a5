/**
 * String primitives the payload validator relies on: Python's `str.isspace`,
 * `str.strip`, `str.lower` and the substring test `needle in haystack`,
 * restricted to the ASCII range of those definitions.
 */
module Text {

  /** `str.isspace` on ASCII: space, tab through carriage return, and the
      four information separators U+001C to U+001F. */
  predicate IsSpace(c: char) {
    c == ' ' || ('\t' <= c <= '\r') || ('\U{1C}' <= c <= '\U{1F}')
  }

  /** `str.lower` on ASCII: only 'A'..'Z' change. */
  function ToLower(c: char): char {
    if 'A' <= c <= 'Z' then (c as int + 32) as char else c
  }

  function Lower(s: string): (r: string)
    ensures |r| == |s|
    ensures forall i | 0 <= i < |s| :: r[i] == ToLower(s[i])
  {
    seq(|s|, i requires 0 <= i < |s| => ToLower(s[i]))
  }

  predicate AllSpace(s: string) {
    forall i | 0 <= i < |s| :: IsSpace(s[i])
  }

  /** `needle in hay`: some position of `hay` starts with `needle`. */
  predicate Contains(hay: string, needle: string) {
    exists i | 0 <= i <= |hay| - |needle| :: needle <= hay[i..]
  }

  /** Number of whitespace characters at the front of `s`. */
  function LeadingSpaces(s: string): (n: nat)
    ensures n <= |s|
    ensures forall i | 0 <= i < n :: IsSpace(s[i])
    ensures n < |s| ==> !IsSpace(s[n])
  {
    if s == [] || !IsSpace(s[0]) then 0 else 1 + LeadingSpaces(s[1..])
  }

  /** Number of whitespace characters at the back of `s`. */
  function TrailingSpaces(s: string): (n: nat)
    ensures n <= |s|
    ensures forall i | |s| - n <= i < |s| :: IsSpace(s[i])
    ensures n < |s| ==> !IsSpace(s[|s| - 1 - n])
  {
    if s == [] || !IsSpace(s[|s| - 1]) then 0 else 1 + TrailingSpaces(s[..|s| - 1])
  }

  /** `str.strip()`: `s` with its whitespace padding removed on both sides.
      The result sits inside `s` after exactly `LeadingSpaces(s)` characters,
      everything around it is whitespace, and it neither starts nor ends with
      whitespace; it is empty exactly when `s` is all whitespace. */
  function Strip(s: string): (r: string)
    ensures var k := LeadingSpaces(s);
      && k + |r| <= |s|
      && s[k..k + |r|] == r
      && AllSpace(s[..k])
      && AllSpace(s[k + |r|..])
    ensures r != [] ==> !IsSpace(r[0]) && !IsSpace(r[|r| - 1])
    ensures r == [] <==> AllSpace(s)
  {
    var lead := LeadingSpaces(s);
    if lead == |s| then []
    else
      var trail := TrailingSpaces(s);
      s[lead..|s| - trail]
  }

  /** Lower-casing commutes with taking a slice. */
  lemma LowerSlice(s: string, lo: nat, hi: nat)
    requires lo <= hi <= |s|
    ensures Lower(s[lo..hi]) == Lower(s)[lo..hi]
  {
  }

  /** `Contains` is transitive: a needle found in a part of the haystack is
      found in the whole. */
  lemma ContainsTransitive(a: string, b: string, c: string)
    requires Contains(a, b) && Contains(b, c)
    ensures Contains(a, c)
  {
    var i :| 0 <= i <= |a| - |b| && b <= a[i..];
    var j :| 0 <= j <= |b| - |c| && c <= b[j..];
    assert c <= a[i + j..] by {
      forall k | 0 <= k < |c| ensures c[k] == a[i + j..][k] {
        assert c[k] == b[j + k] == a[i..][j + k];
      }
    }
  }

  /** A slice of `s` is contained in `s`. */
  lemma SliceContained(s: string, lo: nat, hi: nat)
    requires lo <= hi <= |s|
    ensures Contains(s, s[lo..hi])
  {
    assert s[lo..hi] <= s[lo..];
  }

  /** If `s` contains `c`, then the lower-cased `s` contains the lower-cased
      `c`: the test `c.lower() in s.lower()` catches every casing of `c`. */
  lemma ContainsLowered(s: string, c: string)
    requires Contains(s, c)
    ensures Contains(Lower(s), Lower(c))
  {
    var i :| 0 <= i <= |s| - |c| && c <= s[i..];
    assert Lower(c) <= Lower(s)[i..] by {
      forall k | 0 <= k < |c| ensures Lower(c)[k] == Lower(s)[i..][k] {
        assert c[k] == s[i + k];
      }
    }
  }
}
