/** Facts about products and quotients of reals that the solver does not
    find by itself. */
module RealFacts {

  lemma PositiveFactor(a: real, b: real)
    requires b > 0.0 && a * b > 0.0
    ensures a > 0.0
  {
  }

  /** A quotient n / g of 0 <= n < g lies in [0, 1). */
  lemma QuotientInUnit(n: real, g: real)
    requires g > 0.0 && 0.0 <= n < g
    ensures 0.0 <= n / g < 1.0
  {
    var q := n / g;
    assert q * g == n;
    assert (1.0 - q) * g == g - n;
    PositiveFactor(1.0 - q, g);
  }

  lemma QuotientMonotone(n1: real, n2: real, g: real)
    requires g > 0.0 && n1 <= n2
    ensures n1 / g <= n2 / g
  {
    var q1, q2 := n1 / g, n2 / g;
    assert q1 * g == n1 && q2 * g == n2;
    assert (q2 - q1) * g == n2 - n1;
  }

  lemma QuotientAtLeastOne(n: real, g: real)
    requires g > 0.0 && n >= g
    ensures n / g >= 1.0
  {
    var q := n / g;
    assert q * g == n;
  }

  lemma SquareMonotone(a: real, b: real)
    requires 0.0 <= a <= b
    ensures a * a <= b * b
  {
  }

  /** Scaling by a non-negative factor keeps the order. */
  lemma ScaleMonotone(c: real, k1: real, k2: real)
    requires 0.0 <= c && k1 <= k2
    ensures c * k1 <= c * k2
  {
    assert c * k2 - c * k1 == c * (k2 - k1);
  }

  /** z * z <= z on [0, 1]. */
  lemma SquareOfUnit(z: real)
    requires 0.0 <= z <= 1.0
    ensures 0.0 <= z * z <= z
  {
  }

  /** A multiple of c >= 0 by a factor in [0, 2] lies between 0 and 2c. */
  lemma DoubleScale(c: real, k: real)
    requires 0.0 <= c && 0.0 <= k <= 2.0
    ensures 0.0 <= c * k <= c + c
  {
  }

  /** f + h * (1 - c) for h >= 0 and c in [-1, 1] lies in [f, f + 2h]. */
  lemma RaisedCosineBand(f: real, h: real, c: real)
    requires 0.0 <= h && -1.0 <= c <= 1.0
    ensures f <= f + h * (1.0 - c) <= f + (h + h)
  {
    DoubleScale(h, 1.0 - c);
  }

  /** Scaling by a positive factor keeps a strict order. */
  lemma ScaleStrict(c: real, k1: real, k2: real)
    requires 0.0 < c && k1 < k2
    ensures c * k1 < c * k2
  {
    assert c * k2 - c * k1 == c * (k2 - k1);
  }

  /** Multiplying a quotient back by its divisor gives the dividend. */
  lemma QuotientTimesDivisor(n: real, g: real)
    requires g != 0.0
    ensures g * (n / g) == n
  {
  }
}
