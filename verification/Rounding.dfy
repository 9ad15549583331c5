/**
 The two-decimal rounding used by every financial engine: `math.Round(v*100)/100`,
 which rounds half away from zero, over exact reals.
 */
module Rounding {

  /** Nearest integer, halves away from zero. */
  function Round(x: real): (n: int)
    ensures x - 0.5 <= n as real <= x + 0.5
  {
    if x >= 0.0 then (x + 0.5).Floor else -((0.5 - x).Floor)
  }

  function Round2(v: real): (r: real)
    ensures v - 0.005 <= r <= v + 0.005
  {
    Round(v * 100.0) as real / 100.0
  }

  /** A whole number of hundredths: what Round2 can return. */
  ghost predicate Cents(v: real) {
    exists n: int :: IsCents(v, n)
  }

  predicate IsCents(v: real, n: int) {
    v * 100.0 == n as real
  }

  lemma RoundUnique(x: real, n: int)
    requires x - 0.5 < n as real < x + 0.5
    ensures Round(x) == n
  {
    var m := Round(x);
    assert -1.0 < (m - n) as real < 1.0;
  }

  /** n is the whole number nearest to x, and of two equally near ones the one away from zero. */
  predicate IsNearest(x: real, n: int) {
    && (x >= 0.0 ==> n as real - 0.5 <= x < n as real + 0.5)
    && (x <= 0.0 ==> n as real - 0.5 < x <= n as real + 0.5)
  }

  /** Rounding to two places picks the nearest number of whole hundredths. */
  lemma Round2IsNearest(v: real)
    ensures IsNearest(v * 100.0, Round(v * 100.0)) && Round2(v) * 100.0 == Round(v * 100.0) as real
  {
  }

  lemma RoundMonotone(x: real, y: real)
    requires x <= y
    ensures Round(x) <= Round(y)
  {
  }

  lemma Round2Monotone(x: real, y: real)
    requires x <= y
    ensures Round2(x) <= Round2(y)
  {
    RoundMonotone(x * 100.0, y * 100.0);
  }

  lemma Round2Cents(v: real)
    ensures IsCents(Round2(v), Round(v * 100.0)) && Cents(Round2(v))
  {
  }

  lemma Round2Fixed(v: real)
    requires Cents(v)
    ensures Round2(v) == v
  {
    var n :| IsCents(v, n);
    RoundUnique(v * 100.0, n);
  }

  lemma Round2Idempotent(v: real)
    ensures Round2(Round2(v)) == Round2(v)
  {
    Round2Cents(v);
    Round2Fixed(Round2(v));
  }

  lemma CentsSum(a: real, b: real)
    requires Cents(a) && Cents(b)
    ensures Cents(a + b)
  {
    var m :| IsCents(a, m);
    var n :| IsCents(b, n);
    assert IsCents(a + b, m + n);
  }

  /** Two results of Round2 at distance below 0.02 are at most 0.01 apart. */
  lemma CentsGap(a: real, b: real)
    requires Cents(a) && Cents(b) && -0.02 < a - b < 0.02
    ensures -0.01 <= a - b <= 0.01
  {
    var m :| IsCents(a, m);
    var n :| IsCents(b, n);
    assert -2.0 < (m - n) as real < 2.0;
  }

  /** Rounding before an addition costs at most one hundredth after it. */
  lemma DoubleRounding(x: real, a: real)
    ensures -0.01 <= Round2(Round2(x) + a) - Round2(x + a) <= 0.01
    ensures Cents(x) ==> Round2(Round2(x) + a) == Round2(x + a)
  {
    Round2Cents(Round2(x) + a);
    Round2Cents(x + a);
    CentsGap(Round2(Round2(x) + a), Round2(x + a));
    if Cents(x) {
      Round2Fixed(x);
    }
  }
}
