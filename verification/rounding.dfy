/** Rounding of a real to two decimal places, as Python's `round(x, 2)` does it on the
    exact value of its argument: to the nearest multiple of 1/100, ties to the even
    multiple. */
module Rounding {

  /** The amount of `k` hundredths. */
  function Cents(k: int): real
  {
    k as real / 100.0
  }

  /** `x` is a whole number of hundredths. */
  ghost predicate IsCents(x: real)
  {
    exists k: int :: Cents(k) == x
  }

  /** The whole number of hundredths nearest to `x`, ties to even. */
  function NearestCents(x: real): (k: int)
    ensures -(1.0 / 2.0) <= k as real - 100.0 * x <= 1.0 / 2.0
    ensures k as real - 100.0 * x == 1.0 / 2.0 ==> k % 2 == 0
    ensures k as real - 100.0 * x == -(1.0 / 2.0) ==> k % 2 == 0
  {
    var n := (100.0 * x).Floor;
    var f := 100.0 * x - n as real;
    if f < 1.0 / 2.0 then n
    else if f > 1.0 / 2.0 then n + 1
    else if n % 2 == 0 then n
    else n + 1
  }

  /** `round(x, 2)`. */
  function Round2(x: real): (r: real)
    ensures IsCents(r)
    ensures -(1.0 / 200.0) <= r - x <= 1.0 / 200.0
  {
    Cents(NearestCents(x))
  }

  /** Rounding never reverses the order of two values. */
  lemma Round2Monotone(x: real, y: real)
    requires x <= y
    ensures Round2(x) <= Round2(y)
  {
    var kx, ky := NearestCents(x), NearestCents(y);
    if x < y {
      // kx > ky would put 100x at least a half above kx - 1 >= ky, hence above 100y
      assert kx <= ky;
    }
  }

  /** Rounding keeps the sign: a positive value never rounds below zero and a negative
      one never above it; zero stays zero. */
  lemma Round2Sign(x: real)
    ensures x > 0.0 ==> Round2(x) >= 0.0
    ensures x < 0.0 ==> Round2(x) <= 0.0
    ensures x == 0.0 ==> Round2(x) == 0.0
  {
    Round2Monotone(0.0, if x > 0.0 then x else 0.0);
    Round2Monotone(if x < 0.0 then x else 0.0, 0.0);
    assert NearestCents(0.0) == 0;
  }

  /** A value that is already a whole number of hundredths is left alone, so rounding
      twice is the same as rounding once. */
  lemma Round2Exact(k: int)
    ensures Round2(Cents(k)) == Cents(k)
  {
    var x := Cents(k);
    assert 100.0 * x == k as real;
    assert (100.0 * x).Floor == k;
  }

  lemma Round2Idempotent(x: real)
    ensures Round2(Round2(x)) == Round2(x)
  {
    Round2Exact(NearestCents(x));
  }
}
