/** Decimal rendering of integers, as Swift's string interpolation `"\(n)"`
    prints an `Int`: an optional leading '-', then the digits of the magnitude
    with no leading zeros. `ParseInt` reads such a rendering back; the
    round trip is what makes the rendering injective. */
module Decimal {
  import opened Wrappers

  predicate IsDigit(c: char) {
    '0' <= c <= '9'
  }

  predicate AllDigits(s: string) {
    forall i :: 0 <= i < |s| ==> IsDigit(s[i])
  }

  function DigitChar(d: nat): (c: char)
    requires d < 10
    ensures IsDigit(c) && c as int - '0' as int == d
  {
    ('0' as int + d) as char
  }

  function DigitValue(c: char): (d: nat)
    requires IsDigit(c)
    ensures d < 10 && DigitChar(d) == c
  {
    c as int - '0' as int
  }

  /** The digits of `n`, most significant first. */
  function NatToDecimal(n: nat): (s: string)
    ensures |s| >= 1 && AllDigits(s)
    ensures (|s| == 1) == (n < 10)
    ensures s[0] == '0' ==> n == 0
    decreases n
  {
    if n < 10 then [DigitChar(n)] else NatToDecimal(n / 10) + [DigitChar(n % 10)]
  }

  /** The number a string of digits denotes (the empty string denotes 0). */
  function DecimalValue(s: string): (v: nat)
    requires AllDigits(s)
    decreases |s|
  {
    if s == [] then 0 else 10 * DecimalValue(s[..|s| - 1]) + DigitValue(s[|s| - 1])
  }

  lemma {:induction false} NatDecimalRoundTrip(n: nat)
    ensures DecimalValue(NatToDecimal(n)) == n
    decreases n
  {
    if n >= 10 {
      NatDecimalRoundTrip(n / 10);
      var s := NatToDecimal(n);
      assert s[..|s| - 1] == NatToDecimal(n / 10);
    }
  }

  /** The value of a non-empty digit string that does not start with '0' is positive. */
  lemma {:induction false} DecimalValuePositive(s: string)
    requires |s| >= 1 && AllDigits(s) && s[0] != '0'
    ensures DecimalValue(s) >= 1
    decreases |s|
  {
    if |s| > 1 {
      DecimalValuePositive(s[..|s| - 1]);
    }
  }

  /** A digit string with no leading zero (only "0" itself may start with '0'). */
  predicate IsCanonicalNat(s: string) {
    |s| >= 1 && AllDigits(s) && (s[0] == '0' ==> |s| == 1)
  }

  /** The form Swift prints an `Int` in: a canonical digit string, or '-'
      followed by a canonical digit string other than "0". */
  predicate IsCanonical(s: string) {
    || IsCanonicalNat(s)
    || (|s| >= 2 && s[0] == '-' && IsCanonicalNat(s[1..]) && s[1] != '0')
  }

  /** Every canonical digit string is the rendering of its own value. */
  lemma {:induction false} CanonicalNatRoundTrip(s: string)
    requires IsCanonicalNat(s)
    ensures NatToDecimal(DecimalValue(s)) == s
    decreases |s|
  {
    if |s| > 1 {
      var p, d := s[..|s| - 1], s[|s| - 1];
      assert IsCanonicalNat(p);
      CanonicalNatRoundTrip(p);
      DecimalValuePositive(p);
      var n := DecimalValue(s);
      assert n / 10 == DecimalValue(p) && n % 10 == DigitValue(d);
      assert s == p + [d];
    }
  }

  /** Reads back an optional '-' followed by at least one digit. */
  function ParseInt(s: string): Option<int> {
    if |s| >= 2 && s[0] == '-' && AllDigits(s[1..]) then Some(-(DecimalValue(s[1..]) as int))
    else if |s| >= 1 && AllDigits(s) then Some(DecimalValue(s))
    else None
  }

  /** Swift's `"\(i)"` for an `Int`. */
  function IntToDecimal(i: int): (s: string)
    ensures |s| >= 1
    ensures s[0] == '-' <==> i < 0
    ensures IsCanonical(s)
    ensures ParseInt(s) == Some(i)
  {
    if i < 0 then
      NatDecimalRoundTrip(-i);
      var s := "-" + NatToDecimal(-i);
      assert s[1..] == NatToDecimal(-i);
      s
    else
      NatDecimalRoundTrip(i);
      NatToDecimal(i)
  }

  /** Different integers are printed differently. */
  lemma IntToDecimalInjective(a: int, b: int)
    requires IntToDecimal(a) == IntToDecimal(b)
    ensures a == b
  {
  }

  /** The other direction of the round trip: every string in canonical form is
      the rendering of the integer it reads back as, so the rendering of an
      integer is the only canonical string for it. */
  lemma CanonicalRoundTrip(s: string)
    requires IsCanonical(s)
    ensures ParseInt(s).Some? && IntToDecimal(ParseInt(s).value) == s
  {
    if IsCanonicalNat(s) {
      CanonicalNatRoundTrip(s);
    } else {
      var t := s[1..];
      CanonicalNatRoundTrip(t);
      DecimalValuePositive(t);
      assert s == "-" + t;
    }
  }
}
