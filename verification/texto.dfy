/** The few string operations of Python's `str` that the validators use:
    `strip()`, `lower()`, `startswith`, `endswith` and the `in` substring test. */
module Texto {

  /** The characters for which Python's `str.isspace()` holds: the ASCII
      controls 9-13 and 28-31, the space, NEL, NO-BREAK SPACE and the Unicode
      space separators, line and paragraph separators. */
  predicate IsSpace(c: char) {
    var n := c as int;
    || 9 <= n <= 13
    || 28 <= n <= 32
    || n == 0x85
    || n == 0xA0
    || n == 0x1680
    || 0x2000 <= n <= 0x200A
    || n == 0x2028
    || n == 0x2029
    || n == 0x202F
    || n == 0x205F
    || n == 0x3000
  }

  /** Every character of `s` is whitespace (vacuously so for the empty string). */
  predicate Blank(s: string) {
    forall i :: 0 <= i < |s| ==> IsSpace(s[i])
  }

  /** How many whitespace characters `s` starts with. */
  function LeadingSpaces(s: string): (k: nat)
    ensures k <= |s|
    ensures forall i :: 0 <= i < k ==> IsSpace(s[i])
    ensures k < |s| ==> !IsSpace(s[k])
  {
    if |s| > 0 && IsSpace(s[0]) then 1 + LeadingSpaces(s[1..]) else 0
  }

  /** Where the whitespace `s` ends with begins. */
  function TrailingStart(s: string): (m: nat)
    ensures m <= |s|
    ensures forall i :: m <= i < |s| ==> IsSpace(s[i])
    ensures 0 < m ==> !IsSpace(s[m - 1])
  {
    if |s| > 0 && IsSpace(s[|s| - 1]) then TrailingStart(s[..|s| - 1]) else |s|
  }

  /** Python's `s.strip()` with no argument: empty exactly for a blank string,
      otherwise neither starting nor ending with whitespace. */
  function Strip(s: string): (r: string)
    ensures |r| <= |s|
    ensures r == [] <==> Blank(s)
    ensures r == [] || (!IsSpace(r[0]) && !IsSpace(r[|r| - 1]))
  {
    var k := LeadingSpaces(s);
    if k == |s| then [] else s[k..TrailingStart(s)]
  }

  /** `Strip(s)` is the slice of `s` left after cutting a whitespace-only
      prefix and a whitespace-only suffix: nothing but surrounding whitespace
      is lost. */
  lemma StripIsTrimmedSlice(s: string)
    ensures var k := LeadingSpaces(s);
            var r := Strip(s);
            && k + |r| <= |s|
            && r == s[k..k + |r|]
            && (forall i :: 0 <= i < k ==> IsSpace(s[i]))
            && (forall i :: k + |r| <= i < |s| ==> IsSpace(s[i]))
  {
  }

  /** Stripping twice is the same as stripping once. */
  lemma StripIdempotent(s: string)
    ensures Strip(Strip(s)) == Strip(s)
  {
  }

  /** ASCII lower-casing of one character. */
  function LowerChar(c: char): (d: char)
  {
    if 'A' <= c <= 'Z' then (c as int + 32) as char else c
  }

  /** Python's `s.lower()` restricted to the ASCII letters: each capital
      becomes the small letter at the same place in the alphabet, every other
      character is kept. */
  function ToLower(s: string): (r: string)
    ensures |r| == |s|
    ensures forall i :: 0 <= i < |s| && 'A' <= s[i] <= 'Z' ==>
              'a' <= r[i] <= 'z' && r[i] as int - 'a' as int == s[i] as int - 'A' as int
    ensures forall i :: 0 <= i < |s| && !('A' <= s[i] <= 'Z') ==> r[i] == s[i]
  {
    seq(|s|, i requires 0 <= i < |s| => LowerChar(s[i]))
  }

  /** Lower-casing leaves no ASCII capital behind and changes nothing else
      than the ASCII capitals. */
  lemma ToLowerOnlyFoldsCapitals(s: string)
    ensures forall i :: 0 <= i < |s| ==> !('A' <= ToLower(s)[i] <= 'Z')
    ensures forall i :: 0 <= i < |s| && 'A' <= s[i] <= 'Z' ==>
              ToLower(s)[i] as int - 'a' as int == s[i] as int - 'A' as int
    ensures forall i :: 0 <= i < |s| && !('A' <= s[i] <= 'Z') ==> ToLower(s)[i] == s[i]
  {
  }

  /** A string without ASCII capitals is its own lower-cased form. */
  lemma ToLowerWithoutCapitals(s: string)
    requires forall i :: 0 <= i < |s| ==> !('A' <= s[i] <= 'Z')
    ensures ToLower(s) == s
  {
  }

  /** Lower-casing is idempotent. */
  lemma ToLowerIdempotent(s: string)
    ensures ToLower(ToLower(s)) == ToLower(s)
  {
  }

  /** Lower-casing distributes over concatenation. */
  lemma ToLowerConcat(a: string, b: string)
    ensures ToLower(a + b) == ToLower(a) + ToLower(b)
  {
  }

  /** Python's `s.startswith(p)`: `p` is no longer than `s` and agrees with it
      character by character from the front. */
  predicate StartsWith(s: string, p: string): (b: bool)
    ensures b <==> |p| <= |s| && forall i :: 0 <= i < |p| ==> s[i] == p[i]
  {
    |p| <= |s| && s[..|p|] == p
  }

  /** Python's `s.endswith(p)`: `p` is no longer than `s` and agrees with it
      character by character at the back. */
  predicate EndsWith(s: string, p: string): (b: bool)
    ensures b <==> |p| <= |s| && forall i :: 0 <= i < |p| ==> s[|s| - |p| + i] == p[i]
  {
    |p| <= |s| && s[|s| - |p|..] == p
  }

  /** Reference meaning of Python's `t in s`: `t` occurs in `s` at some offset. */
  ghost predicate IsSubstring(t: string, s: string) {
    exists i :: OccursAt(t, s, i)
  }

  /** `t` occurs in `s` starting at offset `i`. */
  predicate OccursAt(t: string, s: string, i: int) {
    0 <= i <= |s| - |t| && s[i..i + |t|] == t
  }

  /** An occurrence in `s[1..]` is an occurrence in `s`, one position later,
      and an occurrence in `s` not at offset 0 is one in `s[1..]`. */
  lemma SubstringOfTail(t: string, s: string)
    requires |s| > 0
    ensures IsSubstring(t, s) <==> (|t| <= |s| && s[..|t|] == t) || IsSubstring(t, s[1..])
  {
    if |t| <= |s| && s[..|t|] == t {
      assert OccursAt(t, s, 0);
    }
    if IsSubstring(t, s[1..]) {
      var i :| OccursAt(t, s[1..], i);
      assert s[i + 1..i + 1 + |t|] == t;
      assert OccursAt(t, s, i + 1);
    }
    if IsSubstring(t, s) {
      var i :| OccursAt(t, s, i);
      if i > 0 {
        assert s[1..][i - 1..i - 1 + |t|] == t;
        assert OccursAt(t, s[1..], i - 1);
      } else {
        assert s[..|t|] == t;
      }
    }
  }

  /** Python's `t in s`, computed by trying every offset from the left. */
  function Contains(s: string, t: string): (b: bool)
    ensures b <==> IsSubstring(t, s)
    decreases |s|
  {
    if |s| < |t| then false
    else if s[..|t|] == t then (assert OccursAt(t, s, 0); true)
    else if |s| == 0 then false
    else (SubstringOfTail(t, s); Contains(s[1..], t))
  }

  /** An occurrence inside a middle piece is an occurrence in the whole. */
  lemma SubstringOfConcat(t: string, a: string, m: string, b: string)
    requires IsSubstring(t, m)
    ensures IsSubstring(t, a + m + b)
  {
    var i :| OccursAt(t, m, i);
    assert (a + m + b)[|a| + i..|a| + i + |t|] == t;
    assert OccursAt(t, a + m + b, |a| + i);
  }
}
