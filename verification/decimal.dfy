/** Base-10 digit strings, as strconv reads them with base 10: digits only, no
    underscores, no base prefix, leading zeros allowed. */
module Decimal {
  import opened Common

  predicate IsDigit(c: char) { '0' <= c <= '9' }

  /** Every character is a decimal digit (true of the empty string). */
  predicate AllDigits(s: string) {
    forall i :: 0 <= i < |s| ==> IsDigit(s[i])
  }

  /** A non-empty run of decimal digits. */
  predicate IsNumeral(s: string) {
    |s| > 0 && AllDigits(s)
  }

  function DigitValue(c: char): nat
    requires IsDigit(c)
  {
    (c as int) - ('0' as int)
  }

  function DigitChar(d: nat): char
    requires d < 10
  {
    (('0' as int) + d) as char
  }

  function Pow10(n: nat): nat {
    if n == 0 then 1 else 10 * Pow10(n - 1)
  }

  /** The number a digit string denotes by positional notation: each digit weighted
      by ten to the power of the count of digits to its right. Leading zeros weigh
      nothing, and the empty string denotes 0. */
  function NumeralValue(s: string): nat
    requires AllDigits(s)
  {
    if |s| == 0 then 0 else DigitValue(s[0]) * Pow10(|s| - 1) + NumeralValue(s[1..])
  }

  /** Appending a digit shifts the value one place and adds the digit. */
  lemma {:induction false} NumeralValueAppend(s: string, c: char)
    requires AllDigits(s) && IsDigit(c)
    ensures AllDigits(s + [c])
    ensures NumeralValue(s + [c]) == NumeralValue(s) * 10 + DigitValue(c)
  {
    var t := s + [c];
    assert AllDigits(t);
    if |s| == 0 {
      assert t[1..] == [];
    } else {
      assert t[1..] == s[1..] + [c];
      NumeralValueAppend(s[1..], c);
      ShiftOnePlace(DigitValue(s[0]), Pow10(|s| - 1), NumeralValue(s[1..]), DigitValue(c));
    }
  }

  /** The arithmetic of one more digit: a leading digit `d` of weight `p` ahead of
      a tail worth `rest`, all shifted by one place, gains the new last digit `e`. */
  lemma ShiftOnePlace(d: int, p: int, rest: int, e: int)
    ensures d * (10 * p) + (rest * 10 + e) == (d * p + rest) * 10 + e
  {
  }

  /** The value of a numeral, read digit by digit; None for anything that is not
      a non-empty run of digits. Every numeral is accepted, leading zeros included,
      and yields the number it denotes. */
  function ParseDigits(s: string): (r: Option<nat>)
    ensures r.Some? <==> IsNumeral(s)
    ensures r == if IsNumeral(s) then Some(NumeralValue(s)) else None
  {
    if |s| == 0 || !IsDigit(s[|s| - 1]) then None
    else if |s| == 1 then Some(DigitValue(s[0]))
    else
      var prefix := s[..|s| - 1];
      match ParseDigits(prefix)
      case None => None
      case Some(n) =>
        assert s == prefix + [s[|s| - 1]];
        NumeralValueAppend(prefix, s[|s| - 1]);
        Some(n * 10 + DigitValue(s[|s| - 1]))
  }

  /** The canonical numeral of `n`: no sign, no leading zeros. It reads back as `n`. */
  function FormatNat(n: nat): (s: string)
    ensures IsNumeral(s)
    ensures ParseDigits(s) == Some(n)
    ensures |s| > 1 ==> s[0] != '0'
    ensures s[0] == '0' ==> n == 0
  {
    if n < 10 then [DigitChar(n)]
    else
      var s := FormatNat(n / 10) + [DigitChar(n % 10)];
      assert s[..|s| - 1] == FormatNat(n / 10);
      s
  }
}
