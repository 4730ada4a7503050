/**
 The string helpers the form logic relies on: the whitespace class that
 JavaScript's `String.prototype.trim` strips, and `trim` itself.
 Strings here are sequences of Unicode scalar values (a `char` is one code
 point), while the source's strings are sequences of UTF-16 code units. Every
 code point in the whitespace class is a single code unit of the Basic
 Multilingual Plane, so `trim` behaves the same on both representations.
 */
module Text {

  /** ECMAScript WhiteSpace and LineTerminator code points (the set `trim` removes):
      TAB, LF, VT, FF, CR, SPACE, NBSP, OGHAM SPACE MARK, EN QUAD .. HAIR SPACE,
      LINE SEPARATOR, PARAGRAPH SEPARATOR, NARROW NBSP, MEDIUM MATHEMATICAL SPACE,
      IDEOGRAPHIC SPACE and the BYTE ORDER MARK. */
  predicate IsWhitespace(c: char)
  {
    var n := c as int;
    || (0x09 <= n <= 0x0D)
    || n == 0x20
    || n == 0xA0
    || n == 0x1680
    || (0x2000 <= n <= 0x200A)
    || n == 0x2028
    || n == 0x2029
    || n == 0x202F
    || n == 0x205F
    || n == 0x3000
    || n == 0xFEFF
  }

  /** Every character of `s` is whitespace (vacuously true of the empty string). */
  predicate IsBlank(s: string)
  {
    forall i :: 0 <= i < |s| ==> IsWhitespace(s[i])
  }

  /** Leading whitespace removed: the result is a suffix of `s`, what was cut off
      is blank, and the result does not start with whitespace. */
  function TrimStart(s: string): (r: string)
    ensures |r| <= |s|
    ensures r == s[|s| - |r|..]
    ensures IsBlank(s[..|s| - |r|])
    ensures r == [] || !IsWhitespace(r[0])
  {
    if |s| > 0 && IsWhitespace(s[0]) then
      var t := TrimStart(s[1..]);
      assert s[..|s| - |t|] == [s[0]] + s[1..][..|s[1..]| - |t|];
      t
    else
      s
  }

  /** Trailing whitespace removed: the result is a prefix of `s`, what was cut off
      is blank, and the result does not end with whitespace. */
  function TrimEnd(s: string): (r: string)
    ensures |r| <= |s|
    ensures r == s[..|r|]
    ensures IsBlank(s[|r|..])
    ensures r == [] || !IsWhitespace(r[|r| - 1])
  {
    if |s| > 0 && IsWhitespace(s[|s| - 1]) then
      var t := TrimEnd(s[..|s| - 1]);
      assert s[|t|..] == s[..|s| - 1][|t|..] + [s[|s| - 1]];
      t
    else
      s
  }

  /** JavaScript `s.trim()`: the contiguous slice of `s` left after removing
      whitespace at both ends; it neither starts nor ends with whitespace. */
  function Trim(s: string): (r: string)
    ensures exists a, b :: 0 <= a <= b <= |s| && r == s[a..b]
                           && IsBlank(s[..a]) && IsBlank(s[b..])
    ensures r == [] || (!IsWhitespace(r[0]) && !IsWhitespace(r[|r| - 1]))
  {
    var t := TrimStart(s);
    var r := TrimEnd(t);
    var a := |s| - |t|;
    var b := a + |r|;
    assert r == s[a..b];
    assert s[b..] == t[|r|..];
    r
  }

  /** `trim()` yields the empty string exactly when the input is blank: this is
      the guard `!inputText.trim()` of the generate action. */
  lemma TrimEmptyIffBlank(s: string)
    ensures Trim(s) == [] <==> IsBlank(s)
  {
    var t := TrimStart(s);
    var k := |s| - |t|;
    assert forall j :: 0 <= j < |t| ==> t[j] == s[k + j];
    assert forall j :: 0 <= j < k ==> s[..k][j] == s[j];
  }

  /** The truth test `!s.trim()`: JavaScript treats the empty string as false,
      so this holds exactly when trimming leaves nothing, that is, when `s` is blank. */
  function TrimmedEmpty(s: string): (b: bool)
    ensures b <==> IsBlank(s)
  {
    TrimEmptyIffBlank(s);
    Trim(s) == ""
  }
}
