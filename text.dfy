/**
 * The string operations the components rely on: `String.prototype.trim` (used
 * as the blank test `!text.trim()`), and the decimal text of an integer that a
 * template literal such as `${n}px` produces, with a parser that reads it back.
 */
module Text {
  import opened Wrappers

  /** The code points `trim` removes: ECMAScript's WhiteSpace and LineTerminator. */
  predicate IsWhitespace(c: char) {
    var n := c as int;
    n == 0x09 || n == 0x0A || n == 0x0B || n == 0x0C || n == 0x0D || n == 0x20 ||
    n == 0xA0 || n == 0x1680 || (0x2000 <= n <= 0x200A) || n == 0x2028 ||
    n == 0x2029 || n == 0x202F || n == 0x205F || n == 0x3000 || n == 0xFEFF
  }

  /** Every character of `s` is whitespace (vacuously true of ""). */
  ghost predicate AllWhitespace(s: string) {
    forall i :: 0 <= i < |s| ==> IsWhitespace(s[i])
  }

  /** Drops leading whitespace: the result is the suffix of `s` after it. */
  function TrimStart(s: string): (r: string)
    ensures |r| <= |s| && r == s[|s| - |r|..]
    ensures AllWhitespace(s[..|s| - |r|])
    ensures r == [] || !IsWhitespace(r[0])
  {
    if |s| > 0 && IsWhitespace(s[0]) then
      var r := TrimStart(s[1..]);
      assert s[1..][..|s| - 1 - |r|] == s[1..|s| - |r|];
      r
    else
      s
  }

  /** Drops trailing whitespace: the result is the prefix of `s` before it. */
  function TrimEnd(s: string): (r: string)
    ensures |r| <= |s| && r == s[..|r|]
    ensures AllWhitespace(s[|r|..])
    ensures r == [] || !IsWhitespace(r[|r| - 1])
    ensures |s| > 0 && !IsWhitespace(s[0]) ==> |r| > 0
  {
    if |s| > 0 && IsWhitespace(s[|s| - 1]) then
      var init := s[..|s| - 1];
      var r := TrimEnd(init);
      assert r == init[..|r|] == s[..|r|];
      assert s[|r|..] == init[|r|..] + [s[|s| - 1]];
      assert |init| > 0 ==> init[0] == s[0];
      r
    else
      s
  }

  /** `s.trim()`: the slice of `s` left after dropping whitespace at both ends. */
  function Trim(s: string): (r: string)
    ensures var k := |s| - |TrimStart(s)|;
              k + |r| <= |s| && r == s[k..][..|r|] &&
              AllWhitespace(s[..k]) && AllWhitespace(s[k..][|r|..])
    ensures r == [] || (!IsWhitespace(r[0]) && !IsWhitespace(r[|r| - 1]))
  {
    var t := TrimStart(s);
    var r := TrimEnd(t);
    var k := |s| - |t|;
    assert t == s[k..];
    r
  }

  /** The components' blank test `!text.trim()`: trimming leaves the empty string. */
  predicate IsBlank(s: string) {
    Trim(s) == []
  }

  /** A text is blank exactly when every one of its characters is whitespace. */
  lemma BlankIffAllWhitespace(s: string)
    ensures IsBlank(s) <==> AllWhitespace(s)
  {
    var t := TrimStart(s);
    assert s[..|s| - 0] == s;
    if t != [] {
      assert t[0] == s[|s| - |t|];
    }
  }

  /** Trimming twice trims no further. */
  lemma TrimIdempotent(s: string)
    ensures Trim(Trim(s)) == Trim(s)
  {
    var r := Trim(s);
    if r != [] {
      assert TrimStart(r) == r;
      assert TrimEnd(r) == r;
    }
  }

  /** A non-blank text keeps at least one non-whitespace character after trimming. */
  lemma NonBlankHasVisibleChar(s: string)
    requires !IsBlank(s)
    ensures exists i :: 0 <= i < |s| && !IsWhitespace(s[i])
  {
    BlankIffAllWhitespace(s);
  }

  // ---- Decimal text of integers, as a template literal writes them ----

  predicate IsDigit(c: char) {
    '0' <= c <= '9'
  }

  function DigitChar(d: nat): (c: char)
    requires d < 10
    ensures IsDigit(c) && (c as int) - ('0' as int) == d
  {
    ((d + '0' as int) as char)
  }

  /** The decimal digits of `n`, most significant first, with no leading zero. */
  function NatToDigits(n: nat): (r: string)
    ensures |r| > 0 && forall i :: 0 <= i < |r| ==> IsDigit(r[i])
    ensures |r| > 1 ==> r[0] != '0'
  {
    if n < 10 then [DigitChar(n)] else NatToDigits(n / 10) + [DigitChar(n % 10)]
  }

  function DigitValue(c: char): (d: nat)
    requires IsDigit(c)
    ensures d < 10 && DigitChar(d) == c
  {
    (c as int) - ('0' as int)
  }

  /** The value of a string of decimal digits (most significant first). */
  function DigitsToNat(s: string): nat
    requires forall i :: 0 <= i < |s| ==> IsDigit(s[i])
  {
    if s == [] then 0
    else DigitsToNat(s[..|s| - 1]) * 10 + DigitValue(s[|s| - 1])
  }

  lemma {:induction false} DigitsRoundTrip(n: nat)
    ensures DigitsToNat(NatToDigits(n)) == n
  {
    if n >= 10 {
      var p := NatToDigits(n / 10);
      var s := p + [DigitChar(n % 10)];
      assert s[..|s| - 1] == p;
      DigitsRoundTrip(n / 10);
    }
  }

  /** The text of an integer number in a template literal: a `-` sign, then its digits. */
  function IntToDecimal(i: int): (r: string)
    ensures |r| > 0
  {
    if i < 0 then "-" + NatToDigits(-i) else NatToDigits(i)
  }

  /** Reads an optional `-` followed by one or more decimal digits; anything else is `None`. */
  function ParseInt(s: string): Option<int> {
    if |s| > 0 && s[0] == '-' then
      var d := s[1..];
      if |d| > 0 && forall i :: 0 <= i < |d| ==> IsDigit(d[i]) then Some(0 - DigitsToNat(d) as int) else None
    else if |s| > 0 && forall i :: 0 <= i < |s| ==> IsDigit(s[i]) then Some(DigitsToNat(s))
    else None
  }

  /** Parsing the decimal text of an integer gives the integer back. */
  lemma IntDecimalRoundTrip(i: int)
    ensures ParseInt(IntToDecimal(i)) == Some(i)
  {
    var s := IntToDecimal(i);
    if i < 0 {
      var d := NatToDigits(-i);
      assert s[0] == '-' && s[1..] == d;
      DigitsRoundTrip(-i);
      assert ParseInt(s) == Some(0 - DigitsToNat(d) as int);
    } else {
      assert IsDigit(s[0]) && s[0] != '-';
      DigitsRoundTrip(i);
    }
  }
}
