/** The string tests the film and user code relies on, as Java defines them:
    `String.isBlank`, `String.trim`, `String.length` and the
    regular-expression class `\s`.
    Dafny characters are Unicode scalar values, i.e. Java code points. */
module Text {

  /** U+2000 EN QUAD, a Java white-space character above U+0020. */
  const EnQuad: char := 0x2000 as char
  /** U+0001 START OF HEADING, a control character that is not white space. */
  const StartOfHeading: char := 0x01 as char
  /** The three no-break spaces U+00A0, U+2007 and U+202F. */
  const NoBreakSpaces: set<char> := {0xA0 as char, 0x2007 as char, 0x202F as char}

  /** `Character.isWhitespace` on a code point: the Unicode space, line and
      paragraph separators other than the no-break spaces U+00A0, U+2007 and
      U+202F, plus the control characters U+0009..U+000D and U+001C..U+001F. */
  function IsWhitespace(c: char): (r: bool)
    ensures IsRegexSpace(c) ==> r
    ensures c in NoBreakSpaces ==> !r
  {
    var n := c as int;
    || 0x09 <= n <= 0x0D
    || 0x1C <= n <= 0x20
    || n == 0x1680
    || 0x2000 <= n <= 0x2006
    || 0x2008 <= n <= 0x200A
    || n == 0x2028 || n == 0x2029
    || n == 0x205F
    || n == 0x3000
  }

  /** `String.isBlank`: empty, or every code point is white space. */
  function IsBlank(s: string): (r: bool)
    ensures s == [] ==> r
    ensures (forall i :: 0 <= i < |s| ==> IsRegexSpace(s[i])) ==> r
  {
    forall i :: 0 <= i < |s| ==> IsWhitespace(s[i])
  }

  /** A code point that `String.trim` strips: U+0000 up to the space. */
  predicate IsTrimmable(c: char) {
    c as int <= 0x20
  }

  /** The leading half of `trim`: drop trimmable code points from the
      front. What is left is a suffix that starts with a kept code point,
      and only trimmable code points were dropped. */
  function TrimStart(s: string): (r: string)
    ensures |r| <= |s| && r == s[|s| - |r|..]
    ensures r == [] || !IsTrimmable(r[0])
    ensures forall i :: 0 <= i < |s| - |r| ==> IsTrimmable(s[i])
  {
    if s != [] && IsTrimmable(s[0]) then TrimStart(s[1..]) else s
  }

  /** The trailing half of `trim`: drop trimmable code points from the
      back. What is left is a prefix that ends with a kept code point, and
      only trimmable code points were dropped. */
  function TrimEnd(s: string): (r: string)
    ensures |r| <= |s| && r == s[..|r|]
    ensures r == [] || !IsTrimmable(r[|r| - 1])
    ensures forall i :: |r| <= i < |s| ==> IsTrimmable(s[i])
  {
    if s != [] && IsTrimmable(s[|s| - 1]) then TrimEnd(s[..|s| - 1]) else s
  }

  /** `String.trim`. */
  function Trim(s: string): string {
    TrimEnd(TrimStart(s))
  }

  /** `trim().length() == 0`, the blank test of the bean-validation
      `@NotBlank`: nothing is left after `trim` exactly when every code
      point is trimmable. */
  function TrimsToEmpty(s: string): (r: bool)
    ensures r <==> Trim(s) == []
  {
    forall i :: 0 <= i < |s| ==> IsTrimmable(s[i])
  }

  /** A member of the regular-expression class `\s` (without the
      UNICODE_CHARACTER_CLASS flag): `[ \t\n\x0B\f\r]`. */
  predicate IsRegexSpace(c: char) {
    c == ' ' || 0x09 <= c as int <= 0x0D
  }

  /** The whole string matches the regular expression `\S+`. */
  function MatchesNonSpaces(s: string): (r: bool)
    ensures r ==> s != [] && ' ' !in s && '\t' !in s && '\n' !in s && '\r' !in s
  {
    |s| > 0 && forall i :: 0 <= i < |s| ==> !IsRegexSpace(s[i])
  }

  /** A code point outside the Basic Multilingual Plane, which UTF-16 stores
      as a surrogate pair. */
  predicate IsSupplementary(c: char) {
    c as int > 0xFFFF
  }

  /** `String.length()`: the number of UTF-16 code units, so a supplementary
      code point counts twice. */
  function Utf16Length(s: string): (n: nat)
    ensures |s| <= n <= 2 * |s|
    ensures n == |s| <==> forall i :: 0 <= i < |s| ==> !IsSupplementary(s[i])
  {
    if s == [] then 0
    else (if IsSupplementary(s[0]) then 2 else 1) + Utf16Length(s[1..])
  }

  /** The two blank tests differ: U+2000 (EN QUAD) is Java white space but
      survives `trim`, and U+0001 is stripped by `trim` but is not white
      space. */
  lemma BlankTestsDiffer()
    ensures IsBlank([EnQuad]) && !TrimsToEmpty([EnQuad])
    ensures TrimsToEmpty([StartOfHeading]) && !IsBlank([StartOfHeading])
  {
    assert [EnQuad][0] as int > 0x20;
    assert !IsWhitespace([StartOfHeading][0]);
  }

  /** The two login tests are independent: U+0001 matches `\S+` but trims
      to nothing, and "a b" survives `trim` but does not match `\S+`. */
  lemma LoginTestsIndependent()
    ensures MatchesNonSpaces([StartOfHeading]) && TrimsToEmpty([StartOfHeading])
    ensures !TrimsToEmpty("a b") && !MatchesNonSpaces("a b")
  {
    assert !IsTrimmable("a b"[0]);
    assert IsRegexSpace("a b"[1]);
  }

  /** A string of `n` copies of one BMP character has length `n`. */
  lemma RepeatedLength(c: char, n: nat)
    requires !IsSupplementary(c)
    ensures Utf16Length(seq(n, _ => c)) == n
  {
  }
}
