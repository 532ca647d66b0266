/**
 * The exponential function the barometric formula calls.
 *
 * The platform's `exp` is not written in Dafny, so the model takes it as a
 * parameter `exp: real -> real` and constrains it by two laws that together
 * single out e^x among all real functions:
 *   - it turns sums into products:  exp(x + y) == exp(x) * exp(y)
 *   - it lies above its tangent at 0:  exp(x) >= 1 + x
 * Every other fact the model needs (exp(0) == 1, positivity, strict
 * monotonicity, the reciprocal bound) is derived from these two below.
 */
module Exponential {

  /** The functional equation of the exponential, at one pair of points. */
  ghost predicate SumToProduct(exp: real -> real, x: real, y: real) {
    exp(x + y) == exp(x) * exp(y)
  }

  /** The tangent-line bound of the exponential, at one point. */
  ghost predicate AboveTangent(exp: real -> real, x: real) {
    exp(x) >= 1.0 + x
  }

  /** `exp` behaves as the real exponential function. */
  ghost predicate IsExponential(exp: real -> real) {
    (forall x, y :: SumToProduct(exp, x, y)) &&
    (forall x :: AboveTangent(exp, x))
  }

  /** exp(0) == 1: from exp(0) == exp(0) * exp(0) and exp(0) >= 1. */
  lemma ExpAtZero(exp: real -> real)
    requires IsExponential(exp)
    ensures exp(0.0) == 1.0
  {
    assert SumToProduct(exp, 0.0, 0.0);
    assert AboveTangent(exp, 0.0);
    var e := exp(0.0);
    assert e == e * e && e >= 1.0;
    assert e * (e - 1.0) == 0.0;
  }

  /** exp(x) * exp(-x) == 1, so neither factor is zero. */
  lemma ExpReciprocal(exp: real -> real, x: real)
    requires IsExponential(exp)
    ensures exp(x) * exp(-x) == 1.0
  {
    assert SumToProduct(exp, x, -x);
    assert x + -x == 0.0;
    ExpAtZero(exp);
  }

  /** The exponential is strictly positive everywhere. */
  lemma ExpPositive(exp: real -> real, x: real)
    requires IsExponential(exp)
    ensures exp(x) > 0.0
  {
    var h := x / 2.0;
    assert h + h == x;
    assert SumToProduct(exp, h, h);
    assert exp(x) == exp(h) * exp(h);
    SquareNonNegative(exp(h));
    ExpReciprocal(exp, x);
  }

  /** The exponential is strictly increasing. */
  lemma ExpStrictlyIncreasing(exp: real -> real, x: real, y: real)
    requires IsExponential(exp)
    requires x < y
    ensures exp(x) < exp(y)
  {
    var d := y - x;
    assert x + d == y;
    assert SumToProduct(exp, x, d);
    assert AboveTangent(exp, d);
    ExpPositive(exp, x);
    ScaleAboveOne(exp(x), exp(d));
  }

  /** exp(x) < 1 exactly for negative x. */
  lemma ExpBelowOne(exp: real -> real, x: real)
    ensures IsExponential(exp) ==> (exp(x) < 1.0 <==> x < 0.0)
  {
    if IsExponential(exp) {
      ExpAtZero(exp);
      if x < 0.0 {
        ExpStrictlyIncreasing(exp, x, 0.0);
      } else if x > 0.0 {
        ExpStrictlyIncreasing(exp, 0.0, x);
      }
    }
  }

  /** For a > -1, exp(-a) <= 1 / (1 + a): the reciprocal of the tangent bound. */
  lemma ExpNegativeBound(exp: real -> real, a: real)
    requires IsExponential(exp)
    requires a > -1.0
    ensures exp(-a) * (1.0 + a) <= 1.0
  {
    ExpReciprocal(exp, a);
    ExpPositive(exp, -a);
    assert AboveTangent(exp, a);
    ScaleBelow(exp(-a), 1.0 + a, exp(a));
  }

  lemma SquareNonNegative(r: real)
    ensures r * r >= 0.0
  {
  }

  /** Multiplying a positive c by a factor above one makes it larger. */
  lemma ScaleAboveOne(c: real, f: real)
    requires c > 0.0 && f > 1.0
    ensures c * f > c
  {
  }

  /** c * lo <= c * hi for a non-negative c. */
  lemma ScaleBelow(c: real, lo: real, hi: real)
    requires c >= 0.0 && lo <= hi
    ensures c * lo <= c * hi
  {
  }
}
