/**
 * Decimal digits: the zero-padded numbers that PHP's date formats print, and
 * PHP's `(float)` cast of a string, which reads the longest decimal number at
 * the start of the string and gives 0 when there is none.
 */
module Decimal {
  import opened StringOrder

  function Pow10(n: nat): (r: nat)
    ensures r >= 1
  {
    if n == 0 then 1 else 10 * Pow10(n - 1)
  }

  predicate IsDigit(c: char)
  {
    '0' <= c <= '9'
  }

  /** The character of digit `d`. */
  function Digit(d: int): (c: char)
    requires 0 <= d < 10
    ensures IsDigit(c)
  {
    ('0' as int + d) as char
  }

  /** The value of a digit character; the value of any other character is not used. */
  function DigitValue(c: char): (d: nat)
    ensures d < 10
    ensures IsDigit(c) ==> Digit(d) == c
  {
    if IsDigit(c) then c as int - '0' as int else 0
  }

  /** `n` printed with exactly `w` digits, zero-padded on the left (PHP's `%0wd`). */
  function FixedDigits(n: nat, w: nat): (s: string)
    requires n < Pow10(w)
    ensures |s| == w
  {
    if w == 0 then [] else FixedDigits(n / 10, w - 1) + [Digit(n % 10)]
  }

  /**
   * Numbers printed with the same width compare as strings as they compare as
   * numbers, whatever follows them.
   */
  lemma {:induction false} FixedDigitsOrder(a: nat, b: nat, w: nat, x: string, y: string)
    requires a < b < Pow10(w)
    ensures LexLess(FixedDigits(a, w) + x, FixedDigits(b, w) + y)
  {
    assert w > 0;
    var ha, hb := FixedDigits(a / 10, w - 1), FixedDigits(b / 10, w - 1);
    var ta, tb := [Digit(a % 10)] + x, [Digit(b % 10)] + y;
    assert FixedDigits(a, w) + x == ha + ta;
    assert FixedDigits(b, w) + y == hb + tb;
    if a / 10 < b / 10 {
      FixedDigitsOrder(a / 10, b / 10, w - 1, ta, tb);
    } else {
      assert ha == hb && ta[0] < tb[0];
      LexLessCommonPrefix(ha, ta, tb);
    }
  }

  /** Length of the run of digits at the start of `s`. */
  function DigitRun(s: string): (n: nat)
    ensures n <= |s|
  {
    if |s| == 0 || !IsDigit(s[0]) then 0 else 1 + DigitRun(s[1..])
  }

  /** The number a string of digits spells. */
  function DigitsValue(s: string): nat
  {
    if |s| == 0 then 0 else 10 * DigitsValue(s[..|s| - 1]) + DigitValue(s[|s| - 1])
  }

  /** A string of `|s|` digits spells a number below `10^|s|`. */
  lemma {:induction false} DigitsValueBound(s: string)
    ensures DigitsValue(s) < Pow10(|s|)
  {
    if |s| > 0 {
      DigitsValueBound(s[..|s| - 1]);
    }
  }

  /** A zero-padded number is made of digits only. */
  lemma {:induction false} FixedDigitsAreDigits(n: nat, w: nat)
    requires n < Pow10(w)
    ensures forall i :: 0 <= i < w ==> IsDigit(FixedDigits(n, w)[i])
  {
    if w > 0 {
      FixedDigitsAreDigits(n / 10, w - 1);
      var s := FixedDigits(n, w);
      assert forall i :: 0 <= i < w - 1 ==> s[i] == FixedDigits(n / 10, w - 1)[i];
    }
  }

  /** Reading a zero-padded number back gives the number: the padding round-trips. */
  lemma {:induction false} DigitsValueOfFixedDigits(n: nat, w: nat)
    requires n < Pow10(w)
    ensures DigitsValue(FixedDigits(n, w)) == n
  {
    if w > 0 {
      var s := FixedDigits(n, w);
      DigitsValueOfFixedDigits(n / 10, w - 1);
      assert s[..w - 1] == FixedDigits(n / 10, w - 1);
      assert DigitValue(s[w - 1]) == n % 10;
    }
  }

  /** The value of the digits after a decimal point: "77" is 0.77. Always below 1. */
  function FractionValue(s: string): (r: real)
    ensures 0.0 <= r < 1.0
  {
    if |s| == 0 then 0.0 else (DigitValue(s[0]) as real + FractionValue(s[1..])) / 10.0
  }

  /** The digits before and after the decimal point of the number `s` starts with. */
  datatype NumericPrefix = NumericPrefix(negative: bool, whole: string, fraction: string)

  function ScanNumber(s: string): NumericPrefix
  {
    var signed := |s| > 0 && (s[0] == '-' || s[0] == '+');
    var body := if signed then s[1..] else s;
    var whole := body[..DigitRun(body)];
    var rest := body[DigitRun(body)..];
    var fraction := if |rest| > 0 && rest[0] == '.' then rest[1..][..DigitRun(rest[1..])] else [];
    NumericPrefix(signed && s[0] == '-', whole, fraction)
  }

  /**
   * PHP's `(float)` cast of a string: the decimal number at the start of the
   * string (sign, digits, optional fraction), or 0 when it starts with none.
   * The digits before the point are the whole part of the magnitude, and only
   * a leading minus sign makes the result negative.
   */
  function ToFloat(s: string): (r: real)
    ensures DigitsValue(ScanNumber(s).whole) as real <= (if r < 0.0 then -r else r)
                                                     < DigitsValue(ScanNumber(s).whole) as real + 1.0
    ensures r < 0.0 ==> |s| > 0 && s[0] == '-'
  {
    var n := ScanNumber(s);
    if |n.whole| == 0 && |n.fraction| == 0 then 0.0
    else
      var magnitude := DigitsValue(n.whole) as real + FractionValue(n.fraction);
      if n.negative then -magnitude else magnitude
  }

  /** Some character of `s` is a digit other than '0'. */
  predicate HasNonZeroDigit(s: string)
  {
    exists i :: 0 <= i < |s| && IsDigit(s[i]) && s[i] != '0'
  }

  lemma HasNonZeroDigitLast(s: string)
    requires |s| > 0
    ensures HasNonZeroDigit(s) <==>
            HasNonZeroDigit(s[..|s| - 1]) || (IsDigit(s[|s| - 1]) && s[|s| - 1] != '0')
  {
    var front := s[..|s| - 1];
    if HasNonZeroDigit(front) {
      var i :| 0 <= i < |front| && IsDigit(front[i]) && front[i] != '0';
      assert s[i] == front[i];
    }
    if HasNonZeroDigit(s) {
      var i :| 0 <= i < |s| && IsDigit(s[i]) && s[i] != '0';
      if i < |front| {
        assert front[i] == s[i];
      }
    }
  }

  lemma HasNonZeroDigitFirst(s: string)
    requires |s| > 0
    ensures HasNonZeroDigit(s) <==> (IsDigit(s[0]) && s[0] != '0') || HasNonZeroDigit(s[1..])
  {
    var rest := s[1..];
    if HasNonZeroDigit(rest) {
      var i :| 0 <= i < |rest| && IsDigit(rest[i]) && rest[i] != '0';
      assert s[i + 1] == rest[i];
    }
    if HasNonZeroDigit(s) {
      var i :| 0 <= i < |s| && IsDigit(s[i]) && s[i] != '0';
      if i > 0 {
        assert rest[i - 1] == s[i];
      }
    }
  }

  /** Digits spell zero exactly when none of them is a non-zero digit. */
  lemma {:induction false} DigitsValueZero(s: string)
    ensures DigitsValue(s) == 0 <==> !HasNonZeroDigit(s)
  {
    if |s| > 0 {
      DigitsValueZero(s[..|s| - 1]);
      HasNonZeroDigitLast(s);
    }
  }

  /** The digits after a point add nothing exactly when none of them is a non-zero digit. */
  lemma {:induction false} FractionValueZero(s: string)
    ensures FractionValue(s) == 0.0 <==> !HasNonZeroDigit(s)
  {
    if |s| > 0 {
      FractionValueZero(s[1..]);
      HasNonZeroDigitFirst(s);
    }
  }

  /**
   * The cast gives a non-zero number exactly when the number the string
   * starts with has a non-zero digit, before or after the point.
   */
  lemma ToFloatNonZero(s: string)
    ensures ToFloat(s) != 0.0 <==>
            HasNonZeroDigit(ScanNumber(s).whole) || HasNonZeroDigit(ScanNumber(s).fraction)
  {
    DigitsValueZero(ScanNumber(s).whole);
    FractionValueZero(ScanNumber(s).fraction);
  }

  /** `n` printed in decimal without leading zeros. */
  function NatToDecimal(n: nat): (s: string)
    ensures |s| > 0
    ensures forall i :: 0 <= i < |s| ==> IsDigit(s[i])
  {
    if n < 10 then [Digit(n)] else NatToDecimal(n / 10) + [Digit(n % 10)]
  }

  lemma {:induction false} DigitsValueOfNatToDecimal(n: nat)
    ensures DigitsValue(NatToDecimal(n)) == n
  {
    var s := NatToDecimal(n);
    if n >= 10 {
      assert s[..|s| - 1] == NatToDecimal(n / 10);
      DigitsValueOfNatToDecimal(n / 10);
    }
  }

  lemma {:induction false} AllDigitsRun(s: string)
    requires forall i :: 0 <= i < |s| ==> IsDigit(s[i])
    ensures DigitRun(s) == |s|
  {
    if |s| > 0 {
      AllDigitsRun(s[1..]);
    }
  }

  /** Reading back a printed whole number gives that number. */
  lemma ToFloatOfNatToDecimal(n: nat)
    ensures ToFloat(NatToDecimal(n)) == n as real
  {
    var s := NatToDecimal(n);
    AllDigitsRun(s);
    assert s[0] != '-' && s[0] != '+';
    assert s[..|s|] == s;
    DigitsValueOfNatToDecimal(n);
  }
}
