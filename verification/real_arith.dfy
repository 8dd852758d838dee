/**
 * Small facts of real arithmetic. The solver handles each on its own but not
 * inside larger formulas, so the proofs elsewhere cite them one step at a time.
 */
module RealArith {

  lemma PositiveProduct(a: real, b: real)
    requires 0.0 < a && 0.0 < b
    ensures 0.0 < a * b
  {
  }

  lemma NonNegativeProduct(a: real, b: real)
    requires 0.0 <= a && 0.0 <= b
    ensures 0.0 <= a * b
  {
  }

  lemma NonNegativeQuotient(n: real, k: real)
    requires 0.0 <= n && 0.0 < k
    ensures 0.0 <= n / k
  {
  }

  lemma PositiveQuotient(n: real, k: real)
    requires 0.0 < n && 0.0 < k
    ensures 0.0 < n / k
  {
  }

  /** Dividing by `k` and multiplying back by `k` is the identity. */
  lemma DivMul(n: real, k: real)
    requires k != 0.0
    ensures n / k * k == n
  {
  }

  /** Multiplying by a non-negative factor keeps the order. */
  lemma MulMonotone(a: real, x: real, y: real)
    requires 0.0 <= a && x <= y
    ensures a * x <= a * y
  {
    NonNegativeProduct(a, y - x);
  }

  /** Multiplying by `k` and dividing back by `k` is the identity. */
  lemma MulDiv(x: real, k: real)
    requires k != 0.0
    ensures (x * k) / k == x
  {
  }

  /** Multiplying by a factor in [0,1] keeps a non-negative value between zero and itself. */
  lemma MulFraction(x: real, f: real)
    requires 0.0 <= x && 0.0 <= f <= 1.0
    ensures 0.0 <= x * f <= x
  {
    assert x * f <= x * 1.0;
  }
}
