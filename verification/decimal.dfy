/** Decimal rendering of integers (`String(n)` and `n.toString()` in the
    source) and its inverse, used to check that rendered years and counts
    read back as the numbers they came from. */
module Decimal {

  predicate IsDigit(c: char)
  {
    '0' <= c <= '9'
  }

  predicate AllDigits(s: string)
  {
    forall i :: 0 <= i < |s| ==> IsDigit(s[i])
  }

  function DigitChar(d: nat): (c: char)
    requires d < 10
    ensures IsDigit(c) && c as int - '0' as int == d
  {
    ('0' as int + d) as char
  }

  /** Shortest decimal rendering of a natural number. */
  function NatToDecimal(n: nat): (s: string)
    ensures |s| > 0 && AllDigits(s)
    ensures |s| > 1 ==> s[0] != '0'
    decreases n
  {
    if n < 10 then [DigitChar(n)] else NatToDecimal(n / 10) + [DigitChar(n % 10)]
  }

  /** The number a string of digits denotes. */
  function DecimalValue(s: string): nat
    requires AllDigits(s)
    decreases |s|
  {
    if |s| == 0 then 0 else DecimalValue(s[..|s| - 1]) * 10 + (s[|s| - 1] as int - '0' as int)
  }

  /** Reading back a rendered number gives the number. */
  lemma {:induction false} DecimalRoundTrip(n: nat)
    ensures DecimalValue(NatToDecimal(n)) == n
    decreases n
  {
    if n >= 10 {
      var s := NatToDecimal(n);
      assert s[..|s| - 1] == NatToDecimal(n / 10);
      DecimalRoundTrip(n / 10);
    }
  }

  /** Distinct numbers render differently. */
  lemma DecimalInjective(m: nat, n: nat)
    requires NatToDecimal(m) == NatToDecimal(n)
    ensures m == n
  {
    DecimalRoundTrip(m);
    DecimalRoundTrip(n);
  }

  /** Digits as `String(n)` writes them: at least one, and no leading zero
      unless the number is zero. */
  predicate Canonical(s: string)
  {
    |s| > 0 && AllDigits(s) && (|s| > 1 ==> s[0] != '0')
  }

  /** A canonical digit string is the rendering of its value: no other
      spelling of a number, such as "02018", is canonical. */
  lemma {:induction false} CanonicalUnique(s: string)
    requires Canonical(s)
    ensures s == NatToDecimal(DecimalValue(s))
    decreases |s|
  {
    if |s| > 1 {
      var init := s[..|s| - 1];
      assert init[0] == s[0];
      LeadingDigitPositive(init);
      CanonicalUnique(init);
      var n := DecimalValue(s);
      var d := s[|s| - 1] as int - '0' as int;
      assert n == DecimalValue(init) * 10 + d && 0 <= d < 10;
      assert n / 10 == DecimalValue(init) && n % 10 == d;
      assert s == init + [s[|s| - 1]];
    }
  }

  lemma {:induction false} LeadingDigitPositive(s: string)
    requires |s| > 0 && AllDigits(s) && s[0] != '0'
    ensures DecimalValue(s) >= 1
    decreases |s|
  {
    if |s| > 1 {
      var init := s[..|s| - 1];
      assert init[0] == s[0];
      LeadingDigitPositive(init);
    }
  }

  /** `String(i)` for an integer: a minus sign before the magnitude when
      negative, the magnitude written canonically. */
  function IntToString(i: int): (s: string)
    ensures i >= 0 ==> Canonical(s) && DecimalValue(s) == i
    ensures i < 0 ==> |s| > 1 && s[0] == '-' && Canonical(s[1..]) && DecimalValue(s[1..]) == -i
  {
    if i < 0 then
      DecimalRoundTrip(-i);
      var s := "-" + NatToDecimal(-i);
      assert s[1..] == NatToDecimal(-i);
      s
    else
      DecimalRoundTrip(i);
      NatToDecimal(i)
  }
}
