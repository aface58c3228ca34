/**
 * The few JavaScript string operations the core relies on:
 * `toLowerCase` (ASCII only), `includes`, `startsWith` and `trim`.
 * JavaScript strings are sequences of UTF-16 code units; here a string is a
 * `seq<char>`, where a `char` is a Unicode scalar value, so a lone surrogate
 * has no counterpart and a character outside the Basic Multilingual Plane is
 * one element rather than two.
 */
module Text {

  /** ASCII lower-casing of one character; every other character is left alone. */
  function LowerChar(c: char): char {
    if 'A' <= c <= 'Z' then (c as int + 32) as char else c
  }

  predicate IsAsciiUpper(c: char) {
    'A' <= c <= 'Z'
  }

  /** `s.toLowerCase()`, restricted to the ASCII letters. */
  function Lower(s: string): (r: string)
    ensures |r| == |s|
    ensures forall i :: 0 <= i < |r| ==> !IsAsciiUpper(r[i])
    ensures forall i :: 0 <= i < |r| && !IsAsciiUpper(s[i]) ==> r[i] == s[i]
    ensures forall i :: 0 <= i < |r| && IsAsciiUpper(s[i]) ==> r[i] as int == s[i] as int + 32
  {
    seq(|s|, i requires 0 <= i < |s| => LowerChar(s[i]))
  }

  /** Lower-casing twice is lower-casing once. */
  lemma LowerIdempotent(s: string)
    ensures Lower(Lower(s)) == Lower(s)
  {
    var l := Lower(s);
    assert forall i :: 0 <= i < |l| ==> Lower(l)[i] == l[i];
  }

  /** `pat` occurs in `s` starting at index `i`. */
  ghost predicate OccursAt(s: string, pat: string, i: nat) {
    i + |pat| <= |s| && s[i..i + |pat|] == pat
  }

  ghost predicate OccursAtSomeShift(s: string, pat: string) {
    exists i: nat :: OccursAt(s, pat, i)
  }

  /** `s.includes(pat)`: plain substring containment (the empty pattern is everywhere). */
  function Contains(s: string, pat: string): (r: bool)
    ensures r <==> exists i: nat :: OccursAt(s, pat, i)
    decreases |s|
  {
    if |pat| > |s| then false
    else if s[..|pat|] == pat then
      assert OccursAt(s, pat, 0);
      true
    else
      var rest := Contains(s[1..], pat);
      assert rest ==> OccursAtSomeShift(s, pat) by {
        if rest {
          var j: nat :| OccursAt(s[1..], pat, j);
          assert s[1..][j..j + |pat|] == s[j + 1..j + 1 + |pat|];
          assert OccursAt(s, pat, j + 1);
        }
      }
      assert forall i: nat :: OccursAt(s, pat, i) ==> i > 0 && OccursAt(s[1..], pat, i - 1) by {
        forall i: nat | OccursAt(s, pat, i)
          ensures i > 0 && OccursAt(s[1..], pat, i - 1)
        {
          assert i != 0;
          assert s[1..][i - 1..i - 1 + |pat|] == s[i..i + |pat|];
        }
      }
      rest
  }

  /** `s.startsWith(p)`: an occurrence of `p` at index 0, in the sense `includes` uses. */
  predicate StartsWith(s: string, p: string)
    ensures StartsWith(s, p) <==> OccursAt(s, p, 0)
  {
    |p| <= |s| && s[..|p|] == p
  }

  /**
   * The characters `String.prototype.trim` removes: ECMAScript WhiteSpace
   * (TAB, VT, FF, ZWNBSP and the Unicode space separators) and LineTerminator
   * (LF, CR, LS, PS).
   */
  predicate IsWhitespace(c: char) {
    c == '\t' || c == '\n' || c == '\U{B}' || c == '\U{C}' || c == '\r' ||
    c == ' ' || c == '\U{A0}' || c == '\U{1680}' || ('\U{2000}' <= c <= '\U{200A}') ||
    c == '\U{2028}' || c == '\U{2029}' || c == '\U{202F}' || c == '\U{205F}' ||
    c == '\U{3000}' || c == '\U{FEFF}'
  }

  /** Every character of `s` is whitespace (the empty string included). */
  ghost predicate AllWhitespace(s: string) {
    forall i :: 0 <= i < |s| ==> IsWhitespace(s[i])
  }

  /** Number of leading whitespace characters. */
  function LeadingWhitespace(s: string): (k: nat)
    ensures k <= |s|
    ensures AllWhitespace(s[..k])
    ensures k < |s| ==> !IsWhitespace(s[k])
  {
    if |s| > 0 && IsWhitespace(s[0]) then
      var k := 1 + LeadingWhitespace(s[1..]);
      assert s[..k] == [s[0]] + s[1..][..k - 1];
      k
    else 0
  }

  /** Index at which the trailing run of whitespace characters starts. */
  function TrailingWhitespaceStart(s: string): (k: nat)
    ensures k <= |s|
    ensures AllWhitespace(s[k..])
    ensures k > 0 ==> !IsWhitespace(s[k - 1])
  {
    if |s| > 0 && IsWhitespace(s[|s| - 1]) then
      var k := TrailingWhitespaceStart(s[..|s| - 1]);
      assert s[k..] == s[..|s| - 1][k..] + [s[|s| - 1]];
      k
    else |s|
  }

  /** `s.trim()`: `s` without its leading and trailing whitespace. */
  function Trim(s: string): (r: string)
    ensures |r| <= |s|
    ensures r == [] <==> AllWhitespace(s)
    ensures r != [] ==> !IsWhitespace(r[0]) && !IsWhitespace(r[|r| - 1])
    ensures exists a, b :: 0 <= a <= b <= |s| && r == s[a..b] && AllWhitespace(s[..a]) && AllWhitespace(s[b..])
  {
    var a := LeadingWhitespace(s);
    var t := s[a..];
    var b := TrailingWhitespaceStart(t);
    var r := t[..b];
    assert r == [] ==> AllWhitespace(s) by {
      if r == [] {
        forall i | 0 <= i < |s| ensures IsWhitespace(s[i]) {
          assert s[..a][i] == s[i];
        }
      }
    }
    assert r != [] ==> r[0] == s[a] && r[|r| - 1] == t[b - 1];
    assert r == s[a..a + b] && s[a + b..] == t[b..];
    r
  }

  /** A pattern with a character that `s` lacks does not occur in `s`. */
  lemma MissingLetterExcludes(s: string, pat: string, j: nat)
    requires j < |pat| && pat[j] !in s
    ensures !Contains(s, pat)
  {
  }

  /** A string without ASCII capitals is its own lower-case form. */
  lemma LowerFixesLowercase(s: string)
    requires forall i :: 0 <= i < |s| ==> !IsAsciiUpper(s[i])
    ensures Lower(s) == s
  {
  }

  /** Lower-casing works character by character, so it distributes over concatenation. */
  lemma LowerConcat(a: string, b: string)
    ensures Lower(a + b) == Lower(a) + Lower(b)
  {
  }

  /** `!s.trim()`: the string is empty once trimmed, i.e. it is all whitespace. */
  function IsBlank(s: string): (b: bool)
    ensures b <==> AllWhitespace(s)
  {
    if s == [] then true
    else if IsWhitespace(s[0]) then
      var b := IsBlank(s[1..]);
      assert AllWhitespace(s) <==> AllWhitespace(s[1..]) by {
        assert forall i :: 1 <= i < |s| ==> s[i] == s[1..][i - 1];
      }
      b
    else false
  }

  /** The guard `!s.trim()` and the trimmed string being empty are the same test. */
  lemma BlankIffTrimmedEmpty(s: string)
    ensures IsBlank(s) <==> Trim(s) == []
  {
  }
}
