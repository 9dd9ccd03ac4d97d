/** Sign and order facts about real products, which the solver's linear arithmetic does not see by itself. */
module RealFacts {

  lemma MulPositive(a: real, b: real)
    requires a > 0.0 && b > 0.0
    ensures a * b > 0.0
  {
  }

  lemma MulNonnegative(a: real, b: real)
    requires a >= 0.0 && b >= 0.0
    ensures a * b >= 0.0
  {
  }

  /** A fraction `u` in [0, 1) of a positive width `w` lies in [0, w). */
  lemma ScaleBelow(u: real, w: real)
    requires 0.0 <= u < 1.0 && w > 0.0
    ensures 0.0 <= u * w < w
  {
    MulNonnegative(u, w);
    MulPositive(1.0 - u, w);
    assert (1.0 - u) * w == w - u * w;
  }

  lemma SquareLess(a: real, b: real)
    requires 0.0 <= a < b
    ensures a * a < b * b
  {
    MulPositive(b - a, b + a);
    assert b * b - a * a == (b - a) * (b + a);
  }

  lemma SquareAtMost(a: real, b: real)
    requires 0.0 <= a <= b
    ensures a * a <= b * b
  {
    MulNonnegative(b - a, b + a);
    assert b * b - a * a == (b - a) * (b + a);
  }

  /** Bounds on a numerator turn into bounds on the quotient by a positive denominator. */
  lemma QuotientBetween(t: real, g: real, lo: real, hi: real)
    requires g > 0.0 && lo * g <= t <= hi * g
    ensures lo <= t / g <= hi
  {
    var q := t / g;
    assert q * g == t;
    if q < lo {
      MulPositive(lo - q, g);
    }
    if q > hi {
      MulPositive(q - hi, g);
    }
  }
}
