/**
 * `Math.round` of a non-negative-denominator quotient, in exact integers.
 * `Math.round(x)` is `floor(x + 1/2)` (halves go up), so the rounded value
 * of `num / den` is `floor((2*num + den) / (2*den))`; Dafny's `/` on a
 * positive divisor is that floor.
 */
module Rounding {

  function RoundHalfUp(num: int, den: int): int
    requires den > 0
  {
    (2 * num + den) / (2 * den)
  }

  /** The rounded value is the integer nearest to `num / den`, a half going up. */
  lemma RoundHalfUpSpec(num: int, den: int)
    requires den > 0
    ensures var r := RoundHalfUp(num, den);
      den * (2 * r - 1) <= 2 * num < den * (2 * r + 1)
  {
    var r := RoundHalfUp(num, den);
    assert 2 * den * r <= 2 * num + den < 2 * den * r + 2 * den;
  }

  /** Rounding a whole multiple gives the multiplier back. */
  lemma RoundExact(k: int, den: int)
    requires den > 0
    ensures RoundHalfUp(k * den, den) == k
  {
    var r := RoundHalfUp(k * den, den);
    RoundHalfUpSpec(k * den, den);
    assert den * (2 * r - 1) < den * (2 * k + 1);
    assert den * (2 * k - 1) < den * (2 * r + 1);
    if r > k {
      assert 2 * r - 1 >= 2 * k + 1;
      MulMonotone(den, 2 * k + 1, 2 * r - 1);
    } else if r < k {
      assert 2 * k - 1 >= 2 * r + 1;
      MulMonotone(den, 2 * r + 1, 2 * k - 1);
    }
  }

  /** Rounding never reverses the order of two quotients with the same denominator. */
  lemma RoundMonotone(a: int, b: int, den: int)
    requires den > 0 && a <= b
    ensures RoundHalfUp(a, den) <= RoundHalfUp(b, den)
  {
    var ra, rb := RoundHalfUp(a, den), RoundHalfUp(b, den);
    RoundHalfUpSpec(a, den);
    RoundHalfUpSpec(b, den);
    if ra > rb {
      assert 2 * ra - 1 >= 2 * rb + 1;
      MulMonotone(den, 2 * rb + 1, 2 * ra - 1);
    }
  }

  lemma MulMonotone(d: int, x: int, y: int)
    requires d > 0 && x <= y
    ensures d * x <= d * y
  {
  }
}
