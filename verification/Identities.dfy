/** Integer polynomial identities behind the extended-coordinate formulas. Each is one ring-normalisation
    step; the point lemmas only add vanishing multiples to them. */
module Identities {
  lemma SumDifference(x1: int, y1: int, x2: int, y2: int)
    ensures (y1 * y2 + x1 * x2) * (y1 * y2 + x1 * x2) - (x1 * y2 + y1 * x2) * (x1 * y2 + y1 * x2)
         == (y1 * y1 - x1 * x1) * (y2 * y2 - x2 * x2)
    ensures (y1 * y2 + x1 * x2) * (x1 * y2 - y1 * x2)
         == (x1 * y1) * (y2 * y2 - x2 * x2) - (x2 * y2) * (y1 * y1 - x1 * x1)
  {
  }

  lemma SquareGap(x1: int, y1: int, x2: int, y2: int)
    ensures (x1 * y2 - y1 * x2) * (x1 * y2 - y1 * x2) - (x1 * y2 + y1 * x2) * (x1 * y2 + y1 * x2)
            + 4 * ((x1 * y1) * (x2 * y2)) == 0
  {
  }

  lemma AffineSquares(a: int, b: int, d: int)
    ensures (a + d * b) * (a + d * b) == a * a + 2 * d * (a * b) + d * d * (b * b)
    ensures (a - d * b) * (a - d * b) - (a + d * b) * (a + d * b) == -4 * d * (a * b)
  {
  }

  lemma AffineProduct(p: int, q: int, r: int, s: int, d: int)
    ensures (p + d * q) * (r + d * s) == p * r + d * (p * s + q * r) + d * d * (q * s)
  {
  }

  lemma CrossSquares(z1: int, t1: int, z2: int, t2: int)
    ensures (z1 * z1) * (t2 * t2) + (t1 * t1) * (z2 * z2)
         == 2 * ((z1 * z2) * (t1 * t2)) + (t1 * z2 - z1 * t2) * (t1 * z2 - z1 * t2)
  {
  }

  lemma CrossDifference(z1: int, t1: int, z2: int, t2: int)
    ensures (z1 * z2) * (t1 * z2 - z1 * t2) == (z1 * t1) * (z2 * z2) - (z2 * t2) * (z1 * z1)
    ensures (t1 * t2) * (t1 * z2 - z1 * t2) == (z2 * t2) * (t1 * t1) - (z1 * t1) * (t2 * t2)
  {
  }

  /** The Brahmagupta form: a product of two values z^2 + d t^2 is again one, up to d times a square. */
  lemma NormProduct(z1: int, t1: int, z2: int, t2: int, d: int)
    ensures (z1 * z1 + d * (t1 * t1)) * (z2 * z2 + d * (t2 * t2))
         == (z1 * z2 + d * (t1 * t2)) * (z1 * z2 + d * (t1 * t2)) + d * ((t1 * z2 - z1 * t2) * (t1 * z2 - z1 * t2))
  {
    CrossSquares(z1, t1, z2, t2);
    SquareOf(z1, z2);
    SquareOf(t1, t2);
    AffineSquares(z1 * z2, t1 * t2, d);
    AffineProduct(z1 * z1, t1 * t1, z2 * z2, t2 * t2, d);
  }

  lemma AffineTimes(a: int, b: int, w: int, d: int)
    ensures (a - d * b) * w == a * w - d * (b * w)
  {
  }

  lemma AffineDifference(s1: int, s2: int, a1: int, b1: int, a2: int, b2: int, d: int)
    ensures s1 * (a2 + d * b2) - s2 * (a1 + d * b1) == (s1 * a2 - s2 * a1) - d * (s2 * b1 - s1 * b2)
  {
  }

  lemma NormCross(z1: int, t1: int, z2: int, t2: int, d: int)
    ensures (z1 * z2 - d * (t1 * t2)) * (t1 * z2 - z1 * t2)
         == (z1 * t1) * (z2 * z2 + d * (t2 * t2)) - (z2 * t2) * (z1 * z1 + d * (t1 * t1))
  {
    AffineTimes(z1 * z2, t1 * t2, t1 * z2 - z1 * t2, d);
    AffineDifference(z1 * t1, z2 * t2, z1 * z1, t1 * t1, z2 * z2, t2 * t2, d);
    CrossDifference(z1, t1, z2, t2);
  }

  lemma ProductGap(a: int, b: int, q: int, r: int)
    ensures a * b - q * r == b * (a - q) + q * (b - r)
  {
  }

  lemma CrossGap(p: int, q: int, s: int, t: int, a: int, b: int, m: int, n: int)
    ensures p * b - q * a - (s * n - t * m) == b * (p - s) + s * (b - n) + -a * (q - t) + -t * (a - m)
  {
  }

  lemma SquareCross(h: int, u: int, f: int, w: int)
    ensures (h * h) * (u * u) - (f * f) * (w * w) == (h * u + f * w) * (h * u - f * w)
  {
  }

  lemma SquareOf(a: int, b: int)
    ensures (a * b) * (a * b) == (a * a) * (b * b)
  {
  }

  lemma ShiftedSquare(g: int, z: int)
    ensures (g - 2 * z) * (g - 2 * z) - g * g == -4 * (z * (g - z))
  {
  }

  lemma NormCombination(z: int, k: int, v: int, d: int, m: int, n: int)
    requires z * k == n * n
    ensures -4 * (z * (v + d * k)) + 4 * d * (m * m) == -4 * z * v + 4 * d * (m + n) * (m - n)
  {
    assert z * (v + d * k) == z * v + d * (z * k);
    assert (m + n) * (m - n) == m * m - n * n;
    assert 4 * d * (m + n) * (m - n) == 4 * d * ((m + n) * (m - n));
    assert 4 * d * (m * m - n * n) == 4 * d * (m * m) - 4 * (d * (n * n));
  }

  lemma PerfectSquare(a: int, b: int)
    ensures (-a - b) * (-a - b) == 4 * (a * b) + (b - a) * (b - a)
  {
  }

  lemma SquareWithRoot(i: int, x: int, y: int, s: int)
    requires s == 1 || s == -1
    ensures (i * x + s * y) * (i * x + s * y) == (y * y - x * x) + (i * i + 1) * (x * x) + 2 * s * i * (x * y)
  {
    assert (i * x + s * y) * (i * x + s * y) == (i * x) * (i * x) + 2 * ((i * x) * (s * y)) + (s * y) * (s * y);
    SquareOf(i, x);
    SquareOf(s, y);
    assert (i * x) * (s * y) == (s * i) * (x * y);
  }

  /** With m = zz' and n = dtt', the difference of the two norms factors through m - en. */
  lemma CollisionIdentity(m: int, n: int, w: int, i: int, e: int, s: int)
    requires (e == 1 || e == -1) && (s == 1 || s == -1)
    ensures n * n - m * m + 2 * s * i * (w * (n - e * m)) == (-(m + e * n) - 2 * s * e * i * w) * (m - e * n)
  {
    var k := m - e * n;
    assert w * (n - e * m) == -e * (w * k);
    assert 2 * s * i * (-e * (w * k)) == (-2 * s * e * i * w) * k;
    assert (m + e * n) * k == m * m - n * n;
    assert -(m + e * n) * k == -((m + e * n) * k);
    assert (-(m + e * n) + -2 * s * e * i * w) * k == -(m + e * n) * k + (-2 * s * e * i * w) * k;
  }

  lemma Exchange(a: int, b: int, c: int, d: int)
    ensures (a * b) * (c * d) == (a * c) * (b * d)
  {
  }

  lemma QuotientIdentity(a: int, z: int, r: int, v: int)
    ensures z * (r - a * v) + a * (z * v - 1) == r * z - a
  {
    assert z * (r - a * v) == z * r - z * (a * v);
    assert a * (z * v - 1) == a * (z * v) - a;
    assert z * (a * v) == a * (z * v);
  }

  lemma RatioGap(r: int, s: int, z: int, w: int, a: int, b: int)
    ensures w * (r * z - a) - z * (s * w - b) == (z * w) * (r - s) - (a * w - b * z)
  {
    assert w * (r * z - a) == w * (r * z) - a * w;
    assert z * (s * w - b) == z * (s * w) - b * z;
    assert w * (r * z) == (z * w) * r && z * (s * w) == (z * w) * s;
    assert (z * w) * (r - s) == (z * w) * r - (z * w) * s;
  }

  /** The affine curve equation, cleared of denominators, from the extended one. */
  lemma AffineCombination(u: int, v: int, x2: int, y2: int, z2: int, t2: int, d: int)
    ensures (z2 * z2) * (v - u - 1 - d * (u * v))
         == (z2 * (v * z2 - y2) + -z2 * (u * z2 - x2) + -d * ((u * z2) * (v * z2) - x2 * y2)
             + z2 * (y2 - x2 - (z2 + d * t2)))
            - d * (x2 * y2 - z2 * t2)
  {
    assert (u * z2) * (v * z2) == (z2 * z2) * (u * v);
    assert (z2 * z2) * (d * (u * v)) == d * ((z2 * z2) * (u * v));
    assert -d * ((u * z2) * (v * z2) - x2 * y2) == -(d * ((z2 * z2) * (u * v))) + d * (x2 * y2);
    assert d * (x2 * y2 - z2 * t2) == d * (x2 * y2) - d * (z2 * t2);
    assert z2 * (y2 - x2 - (z2 + d * t2)) == z2 * y2 - z2 * x2 - z2 * z2 - d * (z2 * t2);
    assert z2 * (v * z2 - y2) == (z2 * z2) * v - z2 * y2;
    assert -z2 * (u * z2 - x2) == -((z2 * z2) * u) + z2 * x2;
    assert (z2 * z2) * (v - u - 1 - d * (u * v)) == (z2 * z2) * v - (z2 * z2) * u - z2 * z2 - (z2 * z2) * (d * (u * v));
  }

  lemma SharedOrdinate(u: int, w: int, v: int, d: int)
    ensures 1 * (v - u - 1 - d * (u * v)) + -1 * (v - w - 1 - d * (w * v)) == (1 + d * v) * (w - u)
  {
    assert (1 + d * v) * (w - u) == (w - u) + d * v * (w - u);
    assert d * v * (w - u) == d * (w * v) - d * (u * v);
  }
}
