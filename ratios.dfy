/** Facts about the fractions `k / n` that the metrics compute. */
module Ratios {

  /** A count out of a positive total is a fraction in [0, 1], which is 1
      exactly when the count is the total. */
  lemma CountFraction(k: nat, n: nat)
    requires 0 < n && k <= n
    ensures 0.0 <= k as real / n as real <= 1.0
    ensures k as real / n as real == 1.0 <==> k == n
    ensures k as real / n as real == 0.0 <==> k == 0
  {
  }

  /** A non-negative real at most a positive bound gives a fraction in
      (0, 1]. */
  lemma UnitRatio(x: real, y: real)
    requires 0.0 < x <= y
    ensures 0.0 < x / y <= 1.0
  {
  }

  /** The mean of `n` values, each in [0, 1], lies in [0, 1]. */
  lemma MeanOfBounded(total: real, n: nat)
    requires 0 < n && 0.0 <= total <= n as real
    ensures 0.0 <= total / n as real <= 1.0
  {
  }

  /** A quotient is one exactly when numerator and denominator agree. */
  lemma RatioIsOne(x: real, y: real)
    requires y > 0.0
    ensures x / y == 1.0 <==> x == y
  {
    if x / y == 1.0 {
      assert x == (x / y) * y;
    }
  }
}
