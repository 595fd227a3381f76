/** Decimal numbers as the G-code markers spell them: digit runs and their
    value, integers rendered back into text, and rounding to two decimals. */
module Decimal {

  predicate IsDigit(c: char) {
    '0' <= c <= '9'
  }

  predicate AllDigits(s: string) {
    forall i :: 0 <= i < |s| ==> IsDigit(s[i])
  }

  function DigitValue(c: char): (d: nat)
    requires IsDigit(c)
    ensures d < 10
  {
    c as int - '0' as int
  }

  function DigitChar(d: nat): (c: char)
    requires d < 10
    ensures IsDigit(c) && DigitValue(c) == d
  {
    ('0' as int + d) as char
  }

  /** Value of a run of decimal digits; leading zeros are allowed ("007" is 7). */
  function ParseNat(s: string): nat
    requires AllDigits(s)
    decreases |s|
  {
    if |s| == 0 then 0 else 10 * ParseNat(s[..|s| - 1]) + DigitValue(s[|s| - 1])
  }

  /** Decimal rendering of a natural number, as PHP prints an int. */
  function NatToString(n: nat): (s: string)
    ensures |s| > 0 && AllDigits(s)
    ensures s[0] == '0' ==> n == 0 && s == "0"
    decreases n
  {
    if n < 10 then [DigitChar(n)] else NatToString(n / 10) + [DigitChar(n % 10)]
  }

  lemma {:induction false} ParseNatToString(n: nat)
    ensures ParseNat(NatToString(n)) == n
    decreases n
  {
    if n >= 10 {
      var s := NatToString(n);
      assert s[..|s| - 1] == NatToString(n / 10);
      ParseNatToString(n / 10);
    }
  }

  /** Decimal rendering of an integer, with a leading '-' when it is negative. */
  function IntToString(i: int): (s: string)
    ensures i >= 0 ==> |s| > 0 && AllDigits(s) && ParseNat(s) == i
    ensures i < 0 ==> |s| > 1 && s[0] == '-' && AllDigits(s[1..]) && ParseNat(s[1..]) == -i
    // canonical digits: no leading zero, except for 0 itself
    ensures i >= 0 && s[0] == '0' ==> s == "0"
    ensures i < 0 ==> s[1] != '0'
  {
    if i < 0 then
      ParseNatToString(-i);
      var s := "-" + NatToString(-i);
      assert s[1..] == NatToString(-i);
      s
    else
      ParseNatToString(i);
      NatToString(i)
  }

  function Pow10(k: nat): (p: nat)
    ensures p >= 1
  {
    if k == 0 then 1 else 10 * Pow10(k - 1)
  }

  lemma {:induction false} AllDigitsAppend(x: string, y: string)
    requires AllDigits(x) && AllDigits(y)
    ensures AllDigits(x + y)
  {
    var xy := x + y;
    forall i | 0 <= i < |xy|
      ensures IsDigit(xy[i])
    {
      if i >= |x| {
        assert xy[i] == y[i - |x|];
      }
    }
  }

  /** Reading two digit runs written one after the other. */
  lemma {:induction false} ParseNatAppend(x: string, y: string)
    requires AllDigits(x) && AllDigits(y)
    ensures AllDigits(x + y)
    ensures ParseNat(x + y) == ParseNat(x) * Pow10(|y|) + ParseNat(y)
    decreases |y|
  {
    AllDigitsAppend(x, y);
    var xy := x + y;
    if |y| == 0 {
      assert xy == x;
    } else {
      var y' := y[..|y| - 1];
      assert xy[..|xy| - 1] == x + y';
      assert xy[|xy| - 1] == y[|y| - 1];
      ParseNatAppend(x, y');
      var d := DigitValue(y[|y| - 1]);
      assert ParseNat(xy) == 10 * ParseNat(x + y') + d;
      assert ParseNat(y) == 10 * ParseNat(y') + d;
      assert Pow10(|y|) == 10 * Pow10(|y'|);
      ShiftDigit(ParseNat(x), Pow10(|y'|), ParseNat(y'), d);
    }
  }

  /** Digits x, a point, then digits y: the number they spell is x and y
      read together as one integer, divided by 10^|y|. */
  lemma DecimalReading(x: string, y: string)
    requires AllDigits(x) && AllDigits(y)
    ensures AllDigits(x + y)
    ensures ParseNat(x) as real + ParseNat(y) as real / Pow10(|y|) as real
         == ParseNat(x + y) as real / Pow10(|y|) as real
  {
    ParseNatAppend(x, y);
    ScaleBack(ParseNat(x + y), ParseNat(x), Pow10(|y|), ParseNat(y));
  }

  /** An integer t == n * p + m, divided by p, is n plus m / p. */
  lemma ScaleBack(t: int, n: int, p: int, m: int)
    requires p > 0 && t == n * p + m
    ensures t as real / p as real == n as real + m as real / p as real
  {
    assert (n * p) as real == n as real * p as real;
  }

  /** Appending a digit multiplies the left part's weight by ten. */
  lemma ShiftDigit(px: int, q: int, r: int, d: int)
    ensures 10 * (px * q + r) + d == px * (10 * q) + (10 * r + d)
  {
  }

  /** A real with at most two decimals: 100 times it is a whole number. */
  predicate IsHundredths(r: real) {
    (r * 100.0).Floor as real == r * 100.0
  }

  /** The whole number nearest to a non-negative y, halves going up. */
  function RoundHalfUp(y: real): (n: int)
    requires y >= 0.0
    ensures n >= 0
    ensures n as real - 0.5 <= y < n as real + 0.5
  {
    (y + 0.5).Floor
  }

  /** Rounding to two decimals, halves away from zero (PHP's number_format(x, 2),
      read back as a number). */
  function Round2(x: real): (r: real)
    ensures IsHundredths(r)
    ensures -0.005 <= r - x <= 0.005
    ensures r - x == 0.005 ==> x > 0.0
    ensures r - x == -0.005 ==> x < 0.0
  {
    var n := if x >= 0.0 then RoundHalfUp(x * 100.0) else -RoundHalfUp(-x * 100.0);
    assert (n as real / 100.0) * 100.0 == n as real;
    assert n as real - 0.5 <= x * 100.0 <= n as real + 0.5;
    n as real / 100.0
  }
}
