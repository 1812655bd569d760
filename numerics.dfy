/**
  Numbers the game takes from its environment. JavaScript's `Math.random()` yields a
  real in [0, 1); `Math.cos`, `Math.sin`, `Math.atan2`, `Math.hypot` and `Math.PI` are
  supplied by the caller as a `Trig` value and are otherwise uninterpreted.
 */
module Numerics {

  /** One draw of `Math.random()`. */
  type Unit = r: real | 0.0 <= r < 1.0 witness 0.0

  /** The transcendental functions and constant the game uses. */
  datatype Trig = Trig(
    cos: real -> real,
    sin: real -> real,
    atan2: (real, real) -> real,
    hypot: (real, real) -> real,
    pi: real)

  /** A trig supply whose cosine and sine lie on the unit circle. */
  ghost predicate Pythagorean(trig: Trig) {
    forall t :: trig.cos(t) * trig.cos(t) + trig.sin(t) * trig.sin(t) == 1.0
  }

  lemma SquareMonotone(a: real, b: real)
    requires 0.0 <= a <= b
    ensures a * a <= b * b
  {
    assert a * a <= a * b;
  }

  lemma ProductPositive(a: real, b: real)
    requires 0.0 < a && 0.0 < b
    ensures 0.0 < a * b
  {
  }

  lemma SquareStrict(a: real, b: real)
    requires 0.0 <= a < b
    ensures a * a < b * b
  {
    ProductPositive(b - a, b + a);
    assert (b - a) * (b + a) == b * b - a * a;
  }

  lemma SquareNonNegative(a: real)
    ensures 0.0 <= a * a
  {
    if a < 0.0 {
      assert a * a == (-a) * (-a);
    }
  }

  /** A sum of two squares vanishes only when both terms do. */
  lemma SumOfSquaresZero(a: real, b: real)
    requires a * a + b * b == 0.0
    ensures a == 0.0 && b == 0.0
  {
    SquareNonNegative(a);
    SquareNonNegative(b);
    if a != 0.0 {
      if a > 0.0 { SquareStrict(0.0, a); } else { SquareStrict(0.0, -a); }
    }
    if b != 0.0 {
      if b > 0.0 { SquareStrict(0.0, b); } else { SquareStrict(0.0, -b); }
    }
  }

  /** |u| > r >= 0 makes u * u + v * v exceed r * r. */
  lemma SquareDominates(u: real, v: real, r: real)
    requires 0.0 <= r && (r < u || r < -u)
    ensures r * r < u * u + v * v
  {
    SquareNonNegative(v);
    if r < u {
      SquareStrict(r, u);
    } else {
      SquareStrict(r, -u);
      assert (-u) * (-u) == u * u;
    }
  }

  /** Scaling by a non-negative factor keeps a value within its bounds. */
  lemma ScaleBounds(k: real, v: real, lo: real, hi: real)
    requires 0.0 <= k && lo <= v <= hi
    ensures k * lo <= k * v <= k * hi
  {
    assert k * v - k * lo == k * (v - lo);
    assert k * hi - k * v == k * (hi - v);
  }

  lemma QuotientIs(num: real, den: real, q: real)
    requires den != 0.0 && q * den == num
    ensures num / den == q
  {
  }

  /** Scaling a unit vector (c, s) by k gives a vector of squared length k * k. */
  lemma ScaledUnitLength(c: real, s: real, k: real)
    requires c * c + s * s == 1.0
    ensures (c * k) * (c * k) + (s * k) * (s * k) == k * k
  {
    calc {
      (c * k) * (c * k) + (s * k) * (s * k);
      (c * c + s * s) * (k * k);
      k * k;
    }
  }
}
