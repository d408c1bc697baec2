/** Extended twisted-Edwards points with a = -1 (section 5.1.4 of RFC 8032), over any modulus and any
    curve coefficient. Products are reduced exactly where the signer reduces them. */
module Edwards {
  import opened ModArith
  import Identities

  datatype Curve = Curve(p: Modulus, d: int)

  datatype Point = Point(x: int, y: int, z: int, t: int)

  /** The four intermediate values both formulas compute before their final products. */
  datatype Factors = Factors(e: int, f: int, g: int, h: int)

  const IDENTITY := Point(0, 1, 1, 0)

  function AddFactors(c: Curve, left: Point, right: Point): Factors {
    var a := (left.y - left.x) * (right.y - right.x);
    var b := (left.y + left.x) * (right.y + right.x);
    var k := 2 * c.d * left.t * right.t;
    var m := 2 * left.z * right.z;
    Factors(b - a, m - k, m + k, b + a)
  }

  function DoubleFactors(point: Point): Factors {
    var a := point.x * point.x;
    var b := point.y * point.y;
    var k := 2 * point.z * point.z;
    var m := -(point.x * point.x);
    Factors((point.x + point.y) * (point.x + point.y) - a - b, m + b - k, m + b, m - b)
  }

  function Product(s: Factors): Point {
    Point(s.e * s.f, s.g * s.h, s.f * s.g, s.e * s.h)
  }

  function Reduce(c: Curve, q: Point): Point {
    Point(q.x % c.p, q.y % c.p, q.z % c.p, q.t % c.p)
  }

  function PointAdd(c: Curve, left: Point, right: Point): Point {
    Reduce(c, Product(AddFactors(c, left, right)))
  }

  function PointDouble(c: Curve, point: Point): Point {
    Reduce(c, Product(DoubleFactors(point)))
  }

  // ----- The curve -----

  /** Y^2 - X^2 - Z^2 - d T^2, the curve equation in extended coordinates. */
  function CurveDefect(c: Curve, q: Point): int {
    q.y * q.y - q.x * q.x - (q.z * q.z + c.d * (q.t * q.t))
  }

  function ProductDefect(q: Point): int {
    q.x * q.y - q.z * q.t
  }

  /** The two equations every extended point satisfies: the curve in extended coordinates, and XY = ZT. */
  predicate OnCurve(c: Curve, q: Point) {
    Vanishes(c.p, CurveDefect(c, q)) && Vanishes(c.p, ProductDefect(q))
  }

  /** Equality of the affine points represented, without inverses. */
  predicate SamePoint(c: Curve, q: Point, r: Point) {
    && Cong(c.p, q.x * r.z, r.x * q.z)
    && Cong(c.p, q.y * r.z, r.y * q.z)
    && Cong(c.p, q.t * r.z, r.t * q.z)
  }

  /** Coordinate by coordinate, up to the modulus. */
  predicate CongPoint(c: Curve, q: Point, r: Point) {
    && Cong(c.p, q.x, r.x) && Cong(c.p, q.y, r.y) && Cong(c.p, q.z, r.z) && Cong(c.p, q.t, r.t)
  }

  predicate CongFactors(c: Curve, s: Factors, t: Factors) {
    && Cong(c.p, s.e, t.e) && Cong(c.p, s.f, t.f) && Cong(c.p, s.g, t.g) && Cong(c.p, s.h, t.h)
  }

  function Scaled(k: int, q: Point): Point {
    Point(k * q.x, k * q.y, k * q.z, k * q.t)
  }

  // ----- Congruence of points -----

  lemma ReducePoint(c: Curve, q: Point)
    ensures CongPoint(c, Reduce(c, q), q)
  {
    Reduced(c.p, q.x);
    Reduced(c.p, q.y);
    Reduced(c.p, q.z);
    Reduced(c.p, q.t);
  }

  lemma CongPointTrans(c: Curve, q: Point, r: Point, s: Point)
    requires CongPoint(c, q, r) && CongPoint(c, r, s)
    ensures CongPoint(c, q, s)
  {
    CongTrans(c.p, q.x, r.x, s.x);
    CongTrans(c.p, q.y, r.y, s.y);
    CongTrans(c.p, q.z, r.z, s.z);
    CongTrans(c.p, q.t, r.t, s.t);
  }

  lemma CongPointSym(c: Curve, q: Point, r: Point)
    requires CongPoint(c, q, r)
    ensures CongPoint(c, r, q)
  {
    CongSym(c.p, q.x, r.x);
    CongSym(c.p, q.y, r.y);
    CongSym(c.p, q.z, r.z);
    CongSym(c.p, q.t, r.t);
  }

  lemma ProductCong(c: Curve, s: Factors, t: Factors)
    requires CongFactors(c, s, t)
    ensures CongPoint(c, Product(s), Product(t))
  {
    CongMul(c.p, s.e, s.f, t.e, t.f);
    CongMul(c.p, s.g, s.h, t.g, t.h);
    CongMul(c.p, s.f, s.g, t.f, t.g);
    CongMul(c.p, s.e, s.h, t.e, t.h);
  }

  lemma ScaledCong(c: Curve, k: int, q: Point, r: Point)
    requires CongPoint(c, q, r)
    ensures CongPoint(c, Scaled(k, q), Scaled(k, r))
  {
    CongMul(c.p, k, q.x, k, r.x);
    CongMul(c.p, k, q.y, k, r.y);
    CongMul(c.p, k, q.z, k, r.z);
    CongMul(c.p, k, q.t, k, r.t);
  }

  lemma OnCurveCong(c: Curve, q: Point, r: Point)
    requires CongPoint(c, q, r) && OnCurve(c, r)
    ensures OnCurve(c, q)
  {
    CongMul(c.p, q.y, q.y, r.y, r.y);
    CongMul(c.p, q.x, q.x, r.x, r.x);
    CongMul(c.p, q.z, q.z, r.z, r.z);
    CongMul(c.p, q.t, q.t, r.t, r.t);
    Combine4(c.p, 1, q.y * q.y - r.y * r.y, -1, q.x * q.x - r.x * r.x, -1, q.z * q.z - r.z * r.z, -c.d,
             q.t * q.t - r.t * r.t);
    var delta := 1 * (q.y * q.y - r.y * r.y) + -1 * (q.x * q.x - r.x * r.x) + -1 * (q.z * q.z - r.z * r.z)
                 + -c.d * (q.t * q.t - r.t * r.t);
    Sum(c.p, CurveDefect(c, r), delta);
    assert CurveDefect(c, r) + delta == CurveDefect(c, q);
    CongMul(c.p, q.x, q.y, r.x, r.y);
    CongMul(c.p, q.z, q.t, r.z, r.t);
    Combine2(c.p, 1, q.x * q.y - r.x * r.y, -1, q.z * q.t - r.z * r.t);
    Sum(c.p, ProductDefect(r), 1 * (q.x * q.y - r.x * r.y) + -1 * (q.z * q.t - r.z * r.t));
  }

  // ----- Closure -----

  /** The syzygy behind closure: the curve equation of a sum is a combination of four vanishing relations
      between the squares of its factors. */
  lemma ClosureSyzygy(p: Modulus, d: int, e2: int, f2: int, g2: int, h2: int, m: int, d2: int, u2: int)
    requires Vanishes(p, h2 - e2 - g2 - d * d2)
    requires Vanishes(p, f2 - g2 + 4 * d * m)
    requires Vanishes(p, u2 - e2 + 4 * m)
    requires Vanishes(p, h2 * u2 - f2 * d2)
    ensures Vanishes(p, g2 * h2 - e2 * f2 - f2 * g2 - d * (e2 * h2))
  {
    Combine4(p, g2 - d * e2 + d * u2, h2 - e2 - g2 - d * d2, -(e2 + g2) - d * d2, f2 - g2 + 4 * d * m,
             d * (e2 + g2) + d * d * d2, u2 - e2 + 4 * m, -d, h2 * u2 - f2 * d2);
    assert (g2 - d * e2 + d * u2) * (h2 - e2 - g2 - d * d2)
           + (-(e2 + g2) - d * d2) * (f2 - g2 + 4 * d * m)
           + (d * (e2 + g2) + d * d * d2) * (u2 - e2 + 4 * m)
           + -d * (h2 * u2 - f2 * d2)
        == g2 * h2 - e2 * f2 - f2 * g2 - d * (e2 * h2);
  }

  /** A point built from factors is on the curve as soon as the factors' squares satisfy its equation. */
  lemma ProductOnCurve(c: Curve, s: Factors)
    requires Vanishes(c.p, (s.g * s.g) * (s.h * s.h) - (s.e * s.e) * (s.f * s.f) - (s.f * s.f) * (s.g * s.g)
                           - c.d * ((s.e * s.e) * (s.h * s.h)))
    ensures OnCurve(c, Reduce(c, Product(s)))
  {
    Identities.SquareOf(s.g, s.h);
    Identities.SquareOf(s.e, s.f);
    Identities.SquareOf(s.f, s.g);
    Identities.SquareOf(s.e, s.h);
    assert ProductDefect(Product(s)) == 0 by {
      assert (s.e * s.f) * (s.g * s.h) == (s.f * s.g) * (s.e * s.h);
    }
    ReducePoint(c, Product(s));
    OnCurveCong(c, Reduce(c, Product(s)), Product(s));
  }

  /** Half of each factor of a sum; the formula computes each of them twice over. */
  function HalfFactors(c: Curve, q: Point, r: Point): Factors {
    Factors(q.x * r.y + q.y * r.x, q.z * r.z - c.d * (q.t * r.t), q.z * r.z + c.d * (q.t * r.t), q.y * r.y + q.x * r.x)
  }

  lemma AddFactorsHalved(c: Curve, q: Point, r: Point)
    ensures var s := HalfFactors(c, q, r); AddFactors(c, q, r) == Factors(2 * s.e, 2 * s.f, 2 * s.g, 2 * s.h)
  {
    Expand(q.x, q.y, r.x, r.y);
    assert 2 * c.d * q.t * r.t == 2 * (c.d * (q.t * r.t));
    assert 2 * q.z * r.z == 2 * (q.z * r.z);
  }

  lemma Expand(x1: int, y1: int, x2: int, y2: int)
    ensures (y1 + x1) * (y2 + x2) - (y1 - x1) * (y2 - x2) == 2 * (x1 * y2 + y1 * x2)
    ensures (y1 + x1) * (y2 + x2) + (y1 - x1) * (y2 - x2) == 2 * (y1 * y2 + x1 * x2)
    ensures (x1 + y1) * (x1 + y1) - x1 * x1 - y1 * y1 == 2 * (x1 * y1)
  {
  }

  lemma FirstRelation(c: Curve, q: Point, r: Point)
    requires OnCurve(c, q) && OnCurve(c, r)
    ensures var s := HalfFactors(c, q, r); var w := q.t * r.z - q.z * r.t;
      Vanishes(c.p, s.h * s.h - s.e * s.e - s.g * s.g - c.d * (w * w))
  {
    hide Vanishes;
    var a, b := q.y * q.y - q.x * q.x, r.y * r.y - r.x * r.x;
    var m, n := q.z * q.z + c.d * (q.t * q.t), r.z * r.z + c.d * (r.t * r.t);
    Identities.SumDifference(q.x, q.y, r.x, r.y);
    Identities.NormProduct(q.z, q.t, r.z, r.t, c.d);
    Identities.ProductGap(a, b, m, n);
    Combine2(c.p, b, a - m, m, b - n);
  }

  lemma SecondRelation(c: Curve, q: Point, r: Point)
    requires OnCurve(c, q) && OnCurve(c, r)
    ensures var s := HalfFactors(c, q, r);
      Vanishes(c.p, s.f * s.f - s.g * s.g + 4 * c.d * ((q.x * q.y) * (r.x * r.y)))
  {
    hide Vanishes;
    var m, n, k, l := q.x * q.y, r.x * r.y, q.z * q.t, r.z * r.t;
    Identities.AffineSquares(q.z * r.z, q.t * r.t, c.d);
    Identities.Exchange(q.z, r.z, q.t, r.t);
    Identities.ProductGap(m, n, k, l);
    Combine2(c.p, n, m - k, k, n - l);
    Scale(c.p, 4 * c.d, m * n - k * l);
    Distribute(4 * c.d, m * n, k * l);
  }

  lemma Distribute(a: int, b: int, c: int)
    ensures a * (b - c) == a * b - a * c
  {
  }

  lemma ThirdRelation(c: Curve, q: Point, r: Point)
    requires OnCurve(c, q) && OnCurve(c, r)
    ensures var s := HalfFactors(c, q, r); var u, w := q.x * r.y - q.y * r.x, q.t * r.z - q.z * r.t;
      Vanishes(c.p, (s.h * s.h) * (u * u) - (s.f * s.f) * (w * w))
  {
    hide Vanishes;
    var s, u, w := HalfFactors(c, q, r), q.x * r.y - q.y * r.x, q.t * r.z - q.z * r.t;
    var a, b := q.y * q.y - q.x * q.x, r.y * r.y - r.x * r.x;
    var m, n := q.z * q.z + c.d * (q.t * q.t), r.z * r.z + c.d * (r.t * r.t);
    Identities.SumDifference(q.x, q.y, r.x, r.y);
    Identities.NormCross(q.z, q.t, r.z, r.t, c.d);
    Identities.CrossGap(q.x * q.y, r.x * r.y, q.z * q.t, r.z * r.t, a, b, m, n);
    Combine4(c.p, b, ProductDefect(q), q.z * q.t, b - n, -a, ProductDefect(r), -(r.z * r.t), a - m);
    assert Vanishes(c.p, s.h * u - s.f * w);
    Scale(c.p, s.h * u + s.f * w, s.h * u - s.f * w);
    Identities.SquareCross(s.h, u, s.f, w);
  }

  /** Addition is closed on the curve, for every modulus and every coefficient. */
  lemma AddClosed(c: Curve, q: Point, r: Point)
    requires OnCurve(c, q) && OnCurve(c, r)
    ensures OnCurve(c, PointAdd(c, q, r))
  {
    var s := HalfFactors(c, q, r);
    var u, w := q.x * r.y - q.y * r.x, q.t * r.z - q.z * r.t;
    FirstRelation(c, q, r);
    SecondRelation(c, q, r);
    Identities.SquareGap(q.x, q.y, r.x, r.y);
    ThirdRelation(c, q, r);
    ClosureSyzygy(c.p, c.d, s.e * s.e, s.f * s.f, s.g * s.g, s.h * s.h, (q.x * q.y) * (r.x * r.y), w * w, u * u);
    DoubledFactors(c, s);
    AddFactorsHalved(c, q, r);
    ProductOnCurve(c, AddFactors(c, q, r));
  }

  lemma DoubledFactors(c: Curve, s: Factors)
    requires Vanishes(c.p, (s.g * s.g) * (s.h * s.h) - (s.e * s.e) * (s.f * s.f) - (s.f * s.f) * (s.g * s.g)
                           - c.d * ((s.e * s.e) * (s.h * s.h)))
    ensures var t := Factors(2 * s.e, 2 * s.f, 2 * s.g, 2 * s.h);
      Vanishes(c.p, (t.g * t.g) * (t.h * t.h) - (t.e * t.e) * (t.f * t.f) - (t.f * t.f) * (t.g * t.g)
                    - c.d * ((t.e * t.e) * (t.h * t.h)))
  {
    hide Vanishes;
    var e2, f2, g2, h2 := s.e * s.e, s.f * s.f, s.g * s.g, s.h * s.h;
    Scale(c.p, 16, g2 * h2 - e2 * f2 - f2 * g2 - c.d * (e2 * h2));
    assert (2 * s.e) * (2 * s.e) == 4 * e2 && (2 * s.f) * (2 * s.f) == 4 * f2;
    assert (2 * s.g) * (2 * s.g) == 4 * g2 && (2 * s.h) * (2 * s.h) == 4 * h2;
    assert (4 * g2) * (4 * h2) - (4 * e2) * (4 * f2) - (4 * f2) * (4 * g2) - c.d * ((4 * e2) * (4 * h2))
        == 16 * (g2 * h2 - e2 * f2 - f2 * g2 - c.d * (e2 * h2));
  }

  lemma DoubleFactorsExpanded(q: Point)
    ensures DoubleFactors(q)
         == Factors(2 * (q.x * q.y), q.y * q.y - q.x * q.x - 2 * (q.z * q.z), q.y * q.y - q.x * q.x,
                    -(q.x * q.x) - q.y * q.y)
  {
    Expand(q.x, q.y, 0, 0);
    assert 2 * q.z * q.z == 2 * (q.z * q.z);
  }

  /** g - 2z^2 and g agree in square up to 4d(xy)^2 on the curve. */
  lemma DoubleGap(c: Curve, q: Point, f: int, g: int)
    requires OnCurve(c, q)
    requires g == q.y * q.y - q.x * q.x && f == g - 2 * (q.z * q.z)
    ensures Vanishes(c.p, f * f - g * g + 4 * c.d * ((q.x * q.y) * (q.x * q.y)))
  {
    hide Vanishes;
    var z2, k, m, n := q.z * q.z, q.t * q.t, q.x * q.y, q.z * q.t;
    var v := g - (z2 + c.d * k);
    Identities.SquareOf(q.z, q.t);
    Identities.ShiftedSquare(g, z2);
    Identities.NormCombination(z2, k, v, c.d, m, n);
    Combine2(c.p, -4 * z2, v, 4 * c.d * (m + n), m - n);
  }

  lemma DoubleSquares(q: Point)
    ensures var s := DoubleFactors(q);
      s.e * s.e == 4 * ((q.x * q.y) * (q.x * q.y)) && s.h * s.h == s.e * s.e + s.g * s.g
  {
    DoubleFactorsExpanded(q);
    Identities.PerfectSquare(q.x * q.x, q.y * q.y);
    Identities.SquareOf(q.x, q.y);
  }

  /** Doubling is closed on the curve, for every modulus and every coefficient. */
  lemma DoubleClosed(c: Curve, q: Point)
    requires OnCurve(c, q)
    ensures OnCurve(c, PointDouble(c, q))
  {
    var s := DoubleFactors(q);
    DoubleFactorsExpanded(q);
    DoubleGap(c, q, s.f, s.g);
    DoubleSquares(q);
    ClosureSyzygy(c.p, c.d, s.e * s.e, s.f * s.f, s.g * s.g, s.h * s.h, (q.x * q.y) * (q.x * q.y), 0, 0);
    ProductOnCurve(c, s);
  }

  /** The dedicated doubling formula is the addition of a point to itself, scaled by -4. */
  lemma DoubleIsAddSelf(c: Curve, q: Point)
    requires OnCurve(c, q)
    ensures CongPoint(c, PointAdd(c, q, q), Scaled(-4, PointDouble(c, q)))
  {
    var s, t := AddFactors(c, q, q), DoubleFactors(q);
    var t' := Factors(2 * t.e, -2 * t.f, 2 * t.g, -2 * t.h);
    AddFactorsHalved(c, q, q);
    DoubleFactorsExpanded(q);
    Scale(c.p, -2, CurveDefect(c, q));
    Scale(c.p, 2, CurveDefect(c, q));
    assert CongFactors(c, s, t');
    ProductCong(c, s, t');
    ReducePoint(c, Product(s));
    CongPointTrans(c, PointAdd(c, q, q), Product(s), Product(t'));
    ProductScaled(t);
    ReducePoint(c, Product(t));
    CongPointSym(c, PointDouble(c, q), Product(t));
    ScaledCong(c, -4, Product(t), PointDouble(c, q));
    CongPointTrans(c, PointAdd(c, q, q), Product(t'), Scaled(-4, PointDouble(c, q)));
  }

  lemma ProductScaled(t: Factors)
    ensures Product(Factors(2 * t.e, -2 * t.f, 2 * t.g, -2 * t.h)) == Scaled(-4, Product(t))
  {
  }
}
