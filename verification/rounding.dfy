/** `Math.round` on a quotient of integers, and the other small integer
    helpers the calculators share.

    JavaScript's `Math.round(x)` is `floor(x + 1/2)`: ties go towards
    positive infinity, for negative arguments as well. Dafny's `/` floors when
    the divisor is positive, so `floor(n/d + 1/2) == (2n + d) / (2d)` exactly. */
module Rounding {

  function Min(a: int, b: int): int { if a <= b then a else b }

  function Max(a: int, b: int): int { if a >= b then a else b }

  /** `Math.round(n / d)`: the integer nearest to `n / d`, ties rounded up. */
  function RoundHalfUp(n: int, d: int): (r: int)
    requires d > 0
    ensures 2 * d * r - d <= 2 * n < 2 * d * r + d
  {
    var q := (2 * n + d) / (2 * d);
    assert 2 * n + d == 2 * d * q + (2 * n + d) % (2 * d);
    q
  }

  /** The bounds in `RoundHalfUp`'s contract pin the result down: it is the
      only integer within half a unit of `n / d` (with the tie going up). */
  lemma {:induction false} RoundHalfUpUnique(n: int, d: int, r: int)
    requires d > 0
    requires 2 * d * r - d <= 2 * n < 2 * d * r + d
    ensures RoundHalfUp(n, d) == r
  {
    var q := RoundHalfUp(n, d);
    MulCancelLess(2 * d, r - q, 1);
    MulCancelLess(2 * d, q - r, 1);
  }

  /** Rounding preserves order: a larger numerator never rounds lower. */
  lemma {:induction false} RoundHalfUpMonotone(n1: int, n2: int, d: int)
    requires d > 0
    requires n1 <= n2
    ensures RoundHalfUp(n1, d) <= RoundHalfUp(n2, d)
  {
    var r1 := RoundHalfUp(n1, d);
    var r2 := RoundHalfUp(n2, d);
    MulCancelLess(2 * d, r1 - r2, 1);
  }

  /** Cancelling a positive factor from a strict inequality. */
  lemma MulCancelLess(k: int, a: int, b: int)
    requires k > 0
    requires k * a < k * b
    ensures a < b
  {
  }

}
