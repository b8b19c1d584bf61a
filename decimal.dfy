/**
 * Decimal rendering of integers, the form Go's `fmt.Sprintf("%d", n)` gives:
 * an optional minus sign followed by the digits of |n|, most significant
 * first, with no leading zero. `ParseInt` reads such text back and is used
 * to state what number a rendered header value stands for.
 */
module Decimal {

  predicate IsDigit(c: char) {
    '0' <= c <= '9'
  }

  predicate AllDigits(s: string) {
    forall i :: 0 <= i < |s| ==> IsDigit(s[i])
  }

  function DigitChar(d: nat): (c: char)
    requires d < 10
    ensures IsDigit(c) && DigitValue(c) == d
  {
    ('0' as int + d) as char
  }

  function DigitValue(c: char): (d: nat)
    requires IsDigit(c)
    ensures d < 10
  {
    c as int - '0' as int
  }

  /** A digit string without a superfluous leading zero: one starting with `0` is `0` itself. */
  predicate NoLeadingZero(d: string) {
    |d| > 0 && d[0] == '0' ==> |d| == 1
  }

  /** The digits of `n`: at least one, and a leading zero only for zero itself. */
  function NatToDecimal(n: nat): (s: string)
    ensures |s| >= 1 && AllDigits(s)
    ensures s[0] == '0' <==> n == 0
    ensures NoLeadingZero(s)
    decreases n
  {
    if n < 10 then [DigitChar(n)] else NatToDecimal(n / 10) + [DigitChar(n % 10)]
  }

  /** The value of a string of decimal digits (the empty string reads as 0). */
  function ParseNat(s: string): (n: nat)
    requires AllDigits(s)
  {
    if |s| == 0 then 0 else 10 * ParseNat(s[..|s| - 1]) + DigitValue(s[|s| - 1])
  }

  lemma {:induction false} ParseNatToDecimal(n: nat)
    ensures ParseNat(NatToDecimal(n)) == n
    decreases n
  {
    if n >= 10 {
      var s := NatToDecimal(n);
      assert s[..|s| - 1] == NatToDecimal(n / 10);
      ParseNatToDecimal(n / 10);
    }
  }

  /** A string of digits that starts with a non-zero digit stands for a positive number. */
  lemma {:induction false} PositiveValue(d: string)
    requires |d| >= 1 && AllDigits(d) && d[0] != '0'
    ensures ParseNat(d) >= 1
    decreases |d|
  {
    if |d| > 1 {
      var init := d[..|d| - 1];
      assert init[0] == d[0];
      PositiveValue(init);
    }
  }

  /** A digit string without a superfluous leading zero is the rendering of its own value. */
  lemma {:induction false} CanonicalDigits(d: string)
    requires |d| >= 1 && AllDigits(d) && NoLeadingZero(d)
    ensures NatToDecimal(ParseNat(d)) == d
    decreases |d|
  {
    var n := ParseNat(d);
    var last := d[|d| - 1];
    assert DigitChar(DigitValue(last)) == last;
    if |d| > 1 {
      var init := d[..|d| - 1];
      assert init[0] == d[0];
      PositiveValue(init);
      CanonicalDigits(init);
      assert n / 10 == ParseNat(init) && n % 10 == DigitValue(last);
      assert d == init + [last];
    }
  }

  /** Text that `%d` can produce: digits, optionally after one minus sign. */
  predicate IsIntText(s: string) {
    if |s| > 0 && s[0] == '-' then |s| > 1 && AllDigits(s[1..])
    else |s| > 0 && AllDigits(s)
  }

  /** The digits of a number's text, after the minus sign if there is one. */
  function Magnitude(s: string): string
    requires IsIntText(s)
  {
    if s[0] == '-' then s[1..] else s
  }

  function ParseInt(s: string): (n: int)
    requires IsIntText(s)
  {
    if s[0] == '-' then 0 - ParseNat(s[1..]) as int else ParseNat(s)
  }

  /** Go's `%d`: a minus sign exactly for negative numbers, then the digits of the magnitude. */
  function IntToDecimal(n: int): (s: string)
    ensures IsIntText(s)
    ensures s[0] == '-' <==> n < 0
    ensures NoLeadingZero(Magnitude(s))
    ensures ParseInt(s) == n
  {
    if n < 0 then
      var digits := NatToDecimal(-n);
      ParseNatToDecimal(-n);
      assert ("-" + digits)[1..] == digits;
      "-" + digits
    else
      ParseNatToDecimal(n);
      NatToDecimal(n)
  }

  /**
   * The sign, the absence of a leading zero and the value together fix the
   * text: any text with all three is exactly `%d` of the number.
   */
  lemma IntTextUnique(s: string, n: int)
    requires IsIntText(s) && NoLeadingZero(Magnitude(s))
    requires s[0] == '-' <==> n < 0
    requires ParseInt(s) == n
    ensures s == IntToDecimal(n)
  {
    if s[0] == '-' {
      CanonicalDigits(s[1..]);
      assert s == "-" + s[1..];
    } else {
      CanonicalDigits(s);
    }
  }
}
