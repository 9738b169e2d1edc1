/** The few facts about products and rounded-down quotients that the proofs lean on. */
module Arith {

  function Min(x: int, y: int): int {
    if x < y then x else y
  }

  function Max(x: int, y: int): int {
    if x < y then y else x
  }

  lemma MulMonotone(x: int, y: int, k: int)
    requires x <= y && 0 <= k
    ensures x * k <= y * k
  {
  }

  lemma MulStrict(x: int, y: int, k: int)
    requires x < y && 0 < k
    ensures x * k < y * k
  {
  }

  lemma DivBounds(x: int, k: int)
    requires 0 < k
    ensures x / k * k <= x < x / k * k + k
  {
  }

  /** A quotient is at least q exactly when its dividend is at least q divisors. */
  lemma DivAtLeast(x: int, k: int, q: int)
    requires 0 < k
    ensures q <= x / k <==> q * k <= x
  {
    DivBounds(x, k);
    if q <= x / k {
      MulMonotone(q, x / k, k);
    } else {
      MulMonotone(x / k + 1, q, k);
      assert (x / k + 1) * k == x / k * k + k;
    }
  }

  lemma DivMonotone(x: int, y: int, k: int)
    requires x <= y && 0 < k
    ensures x / k <= y / k
  {
    DivBounds(x, k);
    DivAtLeast(y, k, x / k);
  }

  lemma DivNonNegative(x: int, k: int)
    requires 0 <= x && 0 < k
    ensures 0 <= x / k <= x
  {
    DivAtLeast(x, k, 0);
    DivBounds(x, k);
    MulMonotone(1, k, x / k);
  }

  /** x is n over k, rounded down. */
  predicate IsFloor(x: int, n: int, k: int) {
    x * k <= n < (x + 1) * k
  }

  lemma FloorIs(n: int, k: int)
    requires 0 < k
    ensures IsFloor(n / k, n, k)
  {
    DivBounds(n, k);
  }

  /** A share of at most num/den of x, rounded down, lies between nothing and x. */
  lemma ShareBounds(x: int, num: int, den: int)
    requires 0 <= x && 0 <= num <= den && 0 < den
    ensures 0 <= x * num / den <= x
  {
    MulMonotone(num, den, x);
    MulMonotone(0, num, x);
    DivAtLeast(x * num, den, 0);
    DivAtLeast(x * num, den, x + 1);
    assert (x + 1) * den == x * den + den;
  }
}
