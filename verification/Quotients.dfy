/** Comparing real quotients and products. */
module Quotients {

  lemma MulMonotone(k: real, a: real, b: real)
    requires k >= 0.0 && a <= b
    ensures k * a <= k * b
  {
  }

  lemma MulStrict(k: real, a: real, b: real)
    requires k > 0.0 && a < b
    ensures k * a < k * b
  {
  }

  lemma MulDistributes(k: real, a: real, b: real)
    ensures k * (a + b) == k * a + k * b
  {
  }

  /** A number that gives the numerator when multiplied is the quotient. */
  lemma SameQuotient(q: real, n: real, d: real)
    requires d != 0.0 && q * d == n
    ensures n / d == q
  {
    assert (n / d - q) * d == 0.0;
  }

  /** Comparing a quotient with a bound is comparing the numerator with the scaled denominator. */
  lemma QuotientBound(n: real, d: real, bound: real)
    requires d > 0.0
    ensures n <= bound * d <==> n / d <= bound
    ensures n >= bound * d <==> n / d >= bound
  {
    var q := n / d;
    assert q * d == n;
    if q < bound {
      MulStrict(d, q, bound);
    } else if q > bound {
      MulStrict(d, bound, q);
    }
  }

  lemma BelowScaled(n: real, q: real, d: real, e: real)
    requires n == q * d && q > 0.0 && 0.0 < d < e
    ensures n / e < q
  {
    MulStrict(q, d, e);
    QuotientBound(n, e, q);
  }

  /** A quotient falls as its denominator grows, unless the numerator is zero. */
  lemma QuotientFalls(n: real, d: real, e: real)
    requires n >= 0.0 && 0.0 < d <= e
    ensures 0.0 <= n / e <= n / d
    ensures n > 0.0 ==> 0.0 < n / e
    ensures n > 0.0 && d < e ==> n / e < n / d
  {
    QuotientBound(n, d, 0.0);
    QuotientBound(n, e, 0.0);
    QuotientBound(n, d, n / d);
    MulMonotone(n / d, d, e);
    QuotientBound(n, e, n / d);
    if n > 0.0 && d < e {
      assert n / d * d == n;
      BelowScaled(n, n / d, d, e);
    }
  }
}
