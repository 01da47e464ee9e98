/** Order facts about products, squares, roots and quotients of reals. */
module RealFacts {

  function Larger(a: real, b: real): real {
    if a < b then b else a
  }

  /** Exact square roots of reals, characterised by their square. */
  ghost predicate IsSquareRoot(sqrt: real -> real) {
    forall x :: x >= 0.0 ==> sqrt(x) >= 0.0 && sqrt(x) * sqrt(x) == x
  }

  function GeometricMean(sqrt: real -> real, a: real, b: real): real {
    sqrt(a * b)
  }

  lemma Product(x: real, y: real)
    requires x >= 0.0 && y >= 0.0
    ensures x * y >= 0.0
  {
  }

  lemma Monotone(x: real, a: real, b: real)
    requires x >= 0.0 && a <= b
    ensures x * a <= x * b
  {
  }

  lemma StrictlyMonotone(x: real, a: real, b: real)
    requires x > 0.0
    ensures x * a < x * b <==> a < b
  {
  }

  lemma SquareOrder(a: real, b: real)
    requires 0.0 <= a <= b
    ensures a * a <= b * b
    ensures a < b ==> a * a < b * b
  {
    assert b * b - a * a == (b + a) * (b - a);
    if a < b {
      StrictlyMonotone(b + a, 0.0, b - a);
    }
  }

  lemma RootOrder(a: real, b: real)
    requires a >= 0.0 && b >= 0.0
    ensures a <= b <==> a * a <= b * b
  {
    if a <= b {
      SquareOrder(a, b);
    } else {
      SquareOrder(b, a);
    }
  }

  /** Comparing a quotient is comparing with a multiple of the divisor. */
  lemma QuotientOrder(x: real, d: real, bound: real)
    requires d > 0.0
    ensures x < bound * d <==> x / d < bound
    ensures x == bound * d <==> x / d == bound
  {
    var q := x / d;
    assert x == q * d;
    StrictlyMonotone(d, q, bound);
    StrictlyMonotone(d, bound, q);
    assert d * q == q * d && d * bound == bound * d;
  }

  lemma MeanSquared(sqrt: real -> real, a: real, b: real)
    requires IsSquareRoot(sqrt) && a >= 0.0 && b >= 0.0
    ensures GeometricMean(sqrt, a, b) >= 0.0
    ensures GeometricMean(sqrt, a, b) * GeometricMean(sqrt, a, b) == a * b
  {
    Product(a, b);
  }
}
