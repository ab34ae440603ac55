/**
 * Decimal integer text: the NUMBER token shape `-?\d+`, Python's `int()` on
 * that shape, and Python's `str()` on integers, which the code generators use
 * to print parameters.
 */
module Numerals {
  import opened Text

  predicate AllDigits(s: string) {
    forall k :: 0 <= k < |s| ==> IsDigit(s[k])
  }

  /** The text a NUMBER token can have: an optional `-` then one or more digits. */
  predicate IsNumeral(s: string) {
    if |s| > 0 && s[0] == '-' then |s| > 1 && AllDigits(s[1..]) else |s| > 0 && AllDigits(s)
  }

  function DigitValue(c: char): nat
    requires IsDigit(c)
  {
    (c as int) - ('0' as int)
  }

  function DigitChar(d: nat): (c: char)
    requires d < 10
    ensures IsDigit(c) && DigitValue(c) == d
  {
    (d + '0' as int) as char
  }

  /** The value of a digit string read in base ten. */
  function DigitsValue(s: string): nat
    requires AllDigits(s)
  {
    if |s| == 0 then 0 else DigitsValue(s[..|s| - 1]) * 10 + DigitValue(s[|s| - 1])
  }

  /** Python's `int(s)` on NUMBER text. */
  function NumeralValue(s: string): int
    requires IsNumeral(s)
  {
    if s[0] == '-' then -(DigitsValue(s[1..]) as int) else DigitsValue(s)
  }

  /** The decimal digits of `n` with no leading zero. */
  function NatDigits(n: nat): (s: string)
    ensures |s| > 0 && AllDigits(s) && DigitsValue(s) == n
    ensures s[0] == '0' ==> n == 0 && s == "0"
  {
    if n < 10 then [DigitChar(n)]
    else
      var s := NatDigits(n / 10) + [DigitChar(n % 10)];
      assert s[..|s| - 1] == NatDigits(n / 10);
      s
  }

  /** Python's `str(i)`: a `-` for negative values, then the digits of `|i|`. */
  function IntToString(i: int): (s: string)
    ensures IsNumeral(s) && NumeralValue(s) == i
    ensures forall k :: 0 <= k < |s| ==> IsDigit(s[k]) || s[k] == '-'
    ensures (s[0] == '-') <==> i < 0
    ensures var digits := if i < 0 then s[1..] else s; digits[0] == '0' ==> digits == "0"
  {
    if i < 0 then
      var s := "-" + NatDigits(-i);
      assert s[1..] == NatDigits(-i);
      s
    else NatDigits(i)
  }

  /** Digit text with no superfluous leading zero, the only form `NatDigits` prints. */
  predicate CanonicalDigits(d: string) {
    |d| > 0 && AllDigits(d) && (d[0] == '0' ==> |d| == 1)
  }

  /** A numeral as `str()` prints one: canonical digits, and no `-0`. */
  predicate CanonicalNumeral(s: string) {
    IsNumeral(s) &&
    if s[0] == '-' then CanonicalDigits(s[1..]) && s[1] != '0' else CanonicalDigits(s)
  }

  lemma {:induction false} LeadingDigitPositive(d: string)
    requires |d| > 0 && AllDigits(d) && d[0] != '0'
    ensures DigitsValue(d) >= 1
    decreases |d|
  {
    if |d| > 1 {
      var init := d[..|d| - 1];
      assert init[0] == d[0];
      LeadingDigitPositive(init);
    } else {
      assert DigitValue(d[0]) >= 1;
    }
  }

  /** Printing the value of canonical digit text gives back that text. */
  lemma {:induction false} DigitsRoundTrip(d: string)
    requires CanonicalDigits(d)
    ensures NatDigits(DigitsValue(d)) == d
    decreases |d|
  {
    var v := DigitsValue(d);
    if |d| == 1 {
      assert d[..|d| - 1] == [] && DigitsValue([]) == 0;
      assert v == DigitValue(d[0]);
      assert DigitChar(v) == d[0];
    } else {
      var init := d[..|d| - 1];
      assert init[0] == d[0];
      assert AllDigits(init);
      LeadingDigitPositive(init);
      DigitsRoundTrip(init);
      assert v / 10 == DigitsValue(init) && v % 10 == DigitValue(d[|d| - 1]);
      assert DigitChar(v % 10) == d[|d| - 1];
      assert d == init + [d[|d| - 1]];
    }
  }

  /** `str(int(s))` is `s` for every numeral already in the form `str()` prints. */
  lemma {:induction false} NumeralRoundTrip(s: string)
    requires CanonicalNumeral(s)
    ensures IntToString(NumeralValue(s)) == s
  {
    if s[0] == '-' {
      var d := s[1..];
      LeadingDigitPositive(d);
      DigitsRoundTrip(d);
      assert s == "-" + d;
    } else {
      DigitsRoundTrip(s);
    }
  }
}
