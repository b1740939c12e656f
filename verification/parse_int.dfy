/**
 * JavaScript's `parseInt(string, 10)` (section 19.2.5 of ECMA-262): skip
 * leading white space, read an optional sign, take the longest run of
 * decimal digits, and give NaN when that run is empty.
 */
module JsParseInt {
  import opened Decimal

  /**
   * A JavaScript Number as `parseInt` can produce it. A finite value is kept
   * exact: the rounding of magnitudes above 2^53 to the nearest double is not
   * modelled, only the overflow to an infinity.
   */
  datatype JsNumber = NaN | Finite(value: int) | PosInfinity | NegInfinity

  /** 2^1024 - 2^970: the least integer magnitude that rounds to an infinity. */
  const OverflowThreshold: int := 0xffffffff_fffffc00_00000000_00000000_00000000_00000000_00000000_00000000_00000000_00000000_00000000_00000000_00000000_00000000_00000000_00000000_00000000_00000000_00000000_00000000_00000000_00000000_00000000_00000000_00000000_00000000_00000000_00000000_00000000_00000000_00000000_00000000

  /** WhiteSpace and LineTerminator code points (sections 12.2 and 12.3 of ECMA-262). */
  predicate IsStrWhiteSpace(c: char) {
    var k := c as int;
    || k == 0x09 || k == 0x0A || k == 0x0B || k == 0x0C || k == 0x0D || k == 0x20
    || k == 0xA0 || k == 0x1680 || (0x2000 <= k <= 0x200A)
    || k == 0x2028 || k == 0x2029 || k == 0x202F || k == 0x205F || k == 0x3000 || k == 0xFEFF
  }

  predicate AllWhiteSpace(s: string) {
    forall i :: 0 <= i < |s| ==> IsStrWhiteSpace(s[i])
  }

  /** The string with its leading white space removed. */
  function TrimStart(s: string): (t: string)
    ensures |t| <= |s|
    ensures t == [] || !IsStrWhiteSpace(t[0])
  {
    if s != [] && IsStrWhiteSpace(s[0]) then TrimStart(s[1..]) else s
  }

  /** What `TrimStart` removes is a prefix of white space, and nothing else. */
  lemma {:induction false} TrimStartRemovesWhiteSpace(s: string)
    ensures var t := TrimStart(s);
      s == s[..|s| - |t|] + t && AllWhiteSpace(s[..|s| - |t|])
  {
    if s != [] && IsStrWhiteSpace(s[0]) {
      TrimStartRemovesWhiteSpace(s[1..]);
      var t := TrimStart(s);
      assert s[..|s| - |t|] == [s[0]] + s[1..][..|s| - 1 - |t|];
    }
  }

  /** Length of the longest prefix of decimal digits. */
  function DigitRun(s: string): (n: nat)
    ensures n <= |s| && AllDigits(s[..n])
    ensures n == |s| || !IsDigit(s[n])
  {
    if s != [] && IsDigit(s[0]) then
      var n := 1 + DigitRun(s[1..]);
      assert s[..n] == [s[0]] + s[1..][..n - 1];
      n
    else 0
  }

  /** The Number an exact integer converts to. */
  function NumberValue(v: int): (r: JsNumber)
    ensures r == PosInfinity <==> v >= OverflowThreshold
    ensures r == NegInfinity <==> v <= -OverflowThreshold
    ensures r.Finite? ==> r.value == v
  {
    if v >= OverflowThreshold then PosInfinity
    else if v <= -OverflowThreshold then NegInfinity
    else Finite(v)
  }

  function Signed(negative: bool, magnitude: nat): int {
    var m: int := magnitude;
    if negative then -m else m
  }

  /**
   * `parseInt(s, 10)`. Digits are the ASCII digits only; "0x" is not a
   * prefix in radix 10. The reading is NaN exactly when no digit follows
   * the white space and the optional sign, and it is below zero only
   * after a '-'; `ParseInt10OfLayout` and `ParseInt10NoDigits` give its
   * value on every string.
   */
  function ParseInt10(s: string): (r: JsNumber)
    ensures r.NaN? <==> DigitRun(Unsigned(TrimStart(s))) == 0
    ensures r.NegInfinity? || (r.Finite? && r.value < 0) ==> IsNegative(TrimStart(s))
  {
    ParseTrimmed(TrimStart(s))
  }

  /** The sign must be negative when the first character is '-'. */
  predicate IsNegative(t: string) {
    t != [] && t[0] == '-'
  }

  function Unsigned(t: string): string {
    if t != [] && (t[0] == '-' || t[0] == '+') then t[1..] else t
  }

  /** The reading of a string whose white space has been skipped. */
  function ParseTrimmed(t: string): JsNumber {
    var unsigned := Unsigned(t);
    var n := DigitRun(unsigned);
    if n == 0 then NaN else NumberValue(Signed(IsNegative(t), DigitsValue(unsigned[..n])))
  }

  /** The optional sign in front of the digits. */
  datatype Sign = NoSign | Plus | Minus

  function SignText(sign: Sign): string {
    match sign
    case NoSign => ""
    case Plus => "+"
    case Minus => "-"
  }

  lemma {:induction false} TrimStartOfWhiteSpace(ws: string, t: string)
    requires AllWhiteSpace(ws)
    requires t == [] || !IsStrWhiteSpace(t[0])
    ensures TrimStart(ws + t) == t
  {
    if ws != [] {
      assert (ws + t)[1..] == ws[1..] + t;
      TrimStartOfWhiteSpace(ws[1..], t);
    }
  }

  lemma {:induction false} DigitRunOfDigits(digits: string, rest: string)
    requires AllDigits(digits)
    requires rest == [] || !IsDigit(rest[0])
    ensures DigitRun(digits + rest) == |digits|
  {
    if digits != [] {
      assert (digits + rest)[1..] == digits[1..] + rest;
      DigitRunOfDigits(digits[1..], rest);
    }
  }

  /** Leading white space does not change the reading. */
  lemma ParseInt10SkipsWhiteSpace(ws: string, t: string)
    requires AllWhiteSpace(ws)
    requires t == [] || !IsStrWhiteSpace(t[0])
    ensures ParseInt10(ws + t) == ParseInt10(t)
  {
    TrimStartOfWhiteSpace(ws, t);
  }

  /** The sign text in front of a string starting with a digit is what `Unsigned` and `IsNegative` read. */
  lemma SignTextParts(sign: Sign, unsigned: string)
    requires unsigned != [] && IsDigit(unsigned[0])
    ensures Unsigned(SignText(sign) + unsigned) == unsigned
    ensures IsNegative(SignText(sign) + unsigned) == (sign == Minus)
  {
    var t := SignText(sign) + unsigned;
    match sign
    case NoSign =>
      assert t == unsigned;
    case Plus =>
      assert t[1..] == unsigned;
    case Minus =>
      assert t[1..] == unsigned;
  }

  lemma ParseTrimmedOfSignedDigits(sign: Sign, digits: string, rest: string)
    requires |digits| > 0 && AllDigits(digits)
    requires rest == [] || !IsDigit(rest[0])
    ensures ParseTrimmed(SignText(sign) + (digits + rest)) == NumberValue(Signed(sign == Minus, DigitsValue(digits)))
  {
    var unsigned := digits + rest;
    assert unsigned[0] == digits[0];
    SignTextParts(sign, unsigned);
    DigitRunOfDigits(digits, rest);
    assert unsigned[..|digits|] == digits;
  }

  /**
   * The reading of every string laid out as white space, a sign, a
   * non-empty run of digits and a tail that does not start with a digit:
   * the signed value of the digits, whatever the tail holds.
   */
  lemma ParseInt10OfLayout(ws: string, sign: Sign, digits: string, rest: string)
    requires AllWhiteSpace(ws)
    requires |digits| > 0 && AllDigits(digits)
    requires rest == [] || !IsDigit(rest[0])
    ensures ParseInt10(ws + (SignText(sign) + (digits + rest)))
            == NumberValue(Signed(sign == Minus, DigitsValue(digits)))
  {
    var t := SignText(sign) + (digits + rest);
    assert !IsStrWhiteSpace(t[0]) by {
      if sign == NoSign {
        assert t[0] == digits[0];
      }
    }
    TrimStartOfWhiteSpace(ws, t);
    ParseTrimmedOfSignedDigits(sign, digits, rest);
  }

  /** A digit run with no white space or sign before it reads as its value. */
  lemma ParseInt10OfDigitPrefix(digits: string, rest: string)
    requires |digits| > 0 && AllDigits(digits)
    requires DigitsValue(digits) < OverflowThreshold
    requires rest == [] || !IsDigit(rest[0])
    ensures ParseInt10(digits + rest) == Finite(DigitsValue(digits))
  {
    var s := digits + rest;
    assert TrimStart(s) == s by {
      assert s[0] == digits[0];
    }
    assert SignText(NoSign) + s == s;
    ParseTrimmedOfSignedDigits(NoSign, digits, rest);
  }

  /** With no digit after the white space and the optional sign, the result is NaN. */
  lemma ParseInt10NoDigits(ws: string, sign: Sign, rest: string)
    requires AllWhiteSpace(ws)
    requires rest == [] || !IsDigit(rest[0])
    requires sign == NoSign && rest != [] ==> !IsStrWhiteSpace(rest[0]) && rest[0] != '+' && rest[0] != '-'
    ensures ParseInt10(ws + (SignText(sign) + rest)) == NaN
  {
    var t := SignText(sign) + rest;
    TrimStartOfWhiteSpace(ws, t);
    assert Unsigned(t) == rest by {
      if sign != NoSign {
        assert t[1..] == rest;
      } else {
        assert t == rest;
      }
    }
  }

  /** `parseInt(String(n), 10) === n` for every natural number below the overflow threshold. */
  lemma ParseInt10OfNatToString(n: nat)
    requires n < OverflowThreshold
    ensures ParseInt10(NatToString(n)) == Finite(n)
  {
    DigitsValueOfNatToString(n);
    ParseInt10OfDigitPrefix(NatToString(n), "");
    assert NatToString(n) + "" == NatToString(n);
  }
}
