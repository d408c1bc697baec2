/** What the formulas mean over a field: with a non-square coefficient they are complete, they respect
    equality of points, and double-and-add computes n-fold sums. Only associativity is taken as given. */
module EdwardsGroup {
  import opened ModArith
  import opened PrimeField
  import opened Edwards
  import opened Groups

  // ----- The field -----

  predicate RootRelation(c: Curve, r: int, s: int) {
    Vanishes(c.p, c.d * (r * r) - s * s)
  }

  /** The coefficient is not a square of the field. */
  ghost predicate NonSquare(c: Curve) {
    forall r, s {:trigger RootRelation(c, r, s)} :: RootRelation(c, r, s) ==> Vanishes(c.p, r)
  }

  ghost predicate HasRootOfMinusOne(p: Modulus) {
    exists i: int :: Vanishes(p, i * i + 1)
  }

  /** A field of odd characteristic where -1 is a square and the coefficient is not. */
  ghost predicate EdwardsField(c: Curve) {
    c.p > 2 && IsField(c.p) && NonSquare(c) && HasRootOfMinusOne(c.p)
  }

  /** An extended point that represents an affine point of the curve. */
  predicate Valid(c: Curve, q: Point) {
    OnCurve(c, q) && !Vanishes(c.p, q.z)
  }

  lemma Cancel(p: Modulus, a: int, b: int)
    requires IsField(p) && !Vanishes(p, a) && Vanishes(p, a * b)
    ensures Vanishes(p, b)
  {
    hide Vanishes;
    var v := Inverse(p, a);
    Combine2(p, -b, a * v - 1, v, a * b);
    assert -b * (a * v - 1) + v * (a * b) == b;
  }

  lemma NonzeroProduct(p: Modulus, a: int, b: int)
    requires IsField(p) && !Vanishes(p, a) && !Vanishes(p, b)
    ensures !Vanishes(p, a * b)
  {
    if Vanishes(p, a * b) {
      Cancel(p, a, b);
    }
  }

  lemma NonzeroFactors(p: Modulus, a: int, b: int)
    requires !Vanishes(p, a * b)
    ensures !Vanishes(p, a) && !Vanishes(p, b)
  {
    if Vanishes(p, a) {
      Scale(p, b, a);
    }
    if Vanishes(p, b) {
      Scale(p, a, b);
    }
  }

  // ----- Completeness -----

  /** On the curve, (ix + sy)^2 is z^2 + dt^2 + 2si zt when i^2 = -1. */
  lemma SquareOnCurve(c: Curve, q: Point, i: int, s: int)
    requires OnCurve(c, q) && Vanishes(c.p, i * i + 1) && (s == 1 || s == -1)
    ensures Cong(c.p, (i * q.x + s * q.y) * (i * q.x + s * q.y),
                 q.z * q.z + c.d * (q.t * q.t) + 2 * s * i * (q.z * q.t))
  {
    hide Vanishes;
    Identities.SquareWithRoot(i, q.x, q.y, s);
    Combine2(c.p, 1, CurveDefect(c, q), q.x * q.x, i * i + 1);
    Scale(c.p, 2 * s * i, ProductDefect(q));
    Sum(c.p, 1 * CurveDefect(c, q) + q.x * q.x * (i * i + 1), 2 * s * i * ProductDefect(q));
    assert 2 * s * i * ProductDefect(q) == 2 * s * i * (q.x * q.y) - 2 * s * i * (q.z * q.t);
  }

  lemma NormsCollide(d: int, z1: int, t1: int, z2: int, t2: int, i: int, e: int, s: int)
    requires (e == 1 || e == -1) && (s == 1 || s == -1)
    ensures d * (t1 * t1) * (z2 * z2 + d * (t2 * t2) + 2 * s * i * (z2 * t2))
            - z2 * z2 * (z1 * z1 + d * (t1 * t1) + 2 * (s * e) * i * (z1 * t1))
         == (-(z1 * z2 + e * (d * (t1 * t2))) - 2 * s * e * i * (t1 * z2)) * (z1 * z2 - e * (d * (t1 * t2)))
  {
    var m, n, w := z1 * z2, d * (t1 * t2), t1 * z2;
    var a, b := d * (t1 * t1), z2 * z2;
    ThreeTerms(a, b, d * (t2 * t2), 2 * s * i, z2 * t2);
    ThreeTerms(b, z1 * z1, a, 2 * (s * e) * i, z1 * t1);
    RegroupSquares(d, t1, t2);
    Identities.SquareOf(z1, z2);
    RegroupCross(d, z1, t1, z2, t2);
    Distribute(w, n, m, e, s, i);
    Identities.CollisionIdentity(m, n, w, i, e, s);
  }

  lemma RegroupSquares(d: int, t1: int, t2: int)
    ensures d * (t1 * t1) * (d * (t2 * t2)) == (d * (t1 * t2)) * (d * (t1 * t2))
  {
    Identities.SquareOf(t1, t2);
    PullOut(d, t1 * t1, t2 * t2);
    Identities.SquareOf(d, t1 * t2);
  }

  lemma RegroupCross(d: int, z1: int, t1: int, z2: int, t2: int)
    ensures d * (t1 * t1) * (z2 * t2) == (t1 * z2) * (d * (t1 * t2))
    ensures (z2 * z2) * (z1 * t1) == (t1 * z2) * (z1 * z2)
  {
    Identities.Exchange(t1, t1, z2, t2);
    PullOutOne(d, t1 * t1, z2 * t2, t1 * z2, t1 * t2);
    Identities.Exchange(z2, z2, t1, z1);
  }

  lemma PullOut(d: int, a: int, b: int)
    ensures d * a * (d * b) == (d * d) * (a * b)
  {
  }

  lemma PullOutOne(d: int, a: int, b: int, a': int, b': int)
    requires a * b == a' * b'
    ensures d * a * b == a' * (d * b')
  {
    assert d * a * b == d * (a * b);
    assert a' * (d * b') == d * (a' * b');
  }

  lemma Distribute(w: int, n: int, m: int, e: int, s: int, i: int)
    ensures 2 * s * i * (w * (n - e * m)) == 2 * s * i * (w * n) - 2 * (s * e) * i * (w * m)
  {
    assert w * (n - e * m) == w * n - e * (w * m);
    assert 2 * s * i * (e * (w * m)) == 2 * (s * e) * i * (w * m);
  }

  lemma ThreeTerms(a: int, x: int, y: int, k: int, z: int)
    ensures a * (x + y + k * z) == a * x + a * y + k * (a * z)
  {
  }

  /** One denominator of the addition law vanishing would make the coefficient a square. `e` selects the
      denominator, `s` one of two candidate roots. */
  lemma RootFromCollision(c: Curve, q: Point, r: Point, i: int, e: int, s: int)
    requires OnCurve(c, q) && OnCurve(c, r) && Vanishes(c.p, i * i + 1)
    requires (e == 1 || e == -1) && (s == 1 || s == -1)
    requires Vanishes(c.p, q.z * r.z - e * (c.d * (q.t * r.t)))
    ensures RootRelation(c, q.t * (i * r.x + s * r.y), r.z * (i * q.x + (s * e) * q.y))
  {
    hide Vanishes;
    var a, b := c.d * (q.t * q.t), r.z * r.z;
    var u, v := i * r.x + s * r.y, i * q.x + (s * e) * q.y;
    SquareOnCurve(c, r, i, s);
    SquareOnCurve(c, q, i, s * e);
    NormsCollide(c.d, q.z, q.t, r.z, r.t, i, e, s);
    var m := r.z * r.z + c.d * (r.t * r.t) + 2 * s * i * (r.z * r.t);
    var n := q.z * q.z + c.d * (q.t * q.t) + 2 * (s * e) * i * (q.z * q.t);
    Scale(c.p, -(q.z * r.z + e * (c.d * (q.t * r.t))) - 2 * s * e * i * (q.t * r.z),
          q.z * r.z - e * (c.d * (q.t * r.t)));
    assert Vanishes(c.p, a * m - b * n);
    Combine2(c.p, a, u * u - m, -b, v * v - n);
    Sum(c.p, a * (u * u - m) + -b * (v * v - n), a * m - b * n);
    RootForm(c.d, q.t, u, r.z, v, m, n);
  }

  lemma RootForm(d: int, t: int, u: int, z: int, v: int, m: int, n: int)
    ensures d * ((t * u) * (t * u)) - (z * v) * (z * v)
         == d * (t * t) * (u * u - m) + -(z * z) * (v * v - n) + (d * (t * t) * m - z * z * n)
  {
    Identities.SquareOf(t, u);
    Identities.SquareOf(z, v);
  }

  /** A denominator that vanishes forces the second point's t to vanish too. */
  lemma CollisionConsequence(c: Curve, q: Point, r: Point, e: int)
    requires EdwardsField(c) && Valid(c, q) && Valid(c, r)
    requires e == 1 || e == -1
    requires Vanishes(c.p, q.z * r.z - e * (c.d * (q.t * r.t))) && !Vanishes(c.p, q.t)
    ensures Vanishes(c.p, r.z * r.t)
  {
    var i :| Vanishes(c.p, i * i + 1);
    RootFromCollision(c, q, r, i, e, 1);
    RootFromCollision(c, q, r, i, e, -1);
    var u, v := i * r.x + 1 * r.y, i * r.x + -1 * r.y;
    Cancel(c.p, q.t, u);
    Cancel(c.p, q.t, v);
    BothCoordinatesVanish(c, r, i);
  }

  lemma NonzeroTerms(p: Modulus, z: int, d: int, t1: int, t2: int, e: int)
    requires !Vanishes(p, z) && Vanishes(p, z - e * (d * (t1 * t2)))
    ensures !Vanishes(p, t1) && !Vanishes(p, t2)
  {
    var n := d * (t1 * t2);
    if Vanishes(p, n) {
      Combine2(p, 1, z - e * n, e, n);
    }
    NonzeroFactors(p, d, t1 * t2);
    NonzeroFactors(p, t1, t2);
  }

  /** Neither denominator of the addition law vanishes: Bernstein and Lange's completeness argument. */
  lemma DenominatorNonzero(c: Curve, q: Point, r: Point, e: int)
    requires EdwardsField(c) && Valid(c, q) && Valid(c, r)
    requires e == 1 || e == -1
    ensures !Vanishes(c.p, q.z * r.z - e * (c.d * (q.t * r.t)))
  {
    var z, t1, t2 := q.z * r.z, q.t, r.t;
    NonzeroProduct(c.p, q.z, r.z);
    if Vanishes(c.p, z - e * (c.d * (t1 * t2))) {
      NonzeroTerms(c.p, z, c.d, t1, t2, e);
      CollisionConsequence(c, q, r, e);
      NonzeroProduct(c.p, r.z, r.t);
    }
  }

  lemma BothCoordinatesVanish(c: Curve, r: Point, i: int)
    requires EdwardsField(c) && OnCurve(c, r)
    requires Vanishes(c.p, i * r.x + 1 * r.y) && Vanishes(c.p, i * r.x + -1 * r.y)
    ensures Vanishes(c.p, r.z * r.t)
  {
    HalfGapVanishes(c.p, i * r.x, r.y);
    Combine2(c.p, r.x, r.y, -1, ProductDefect(r));
  }

  lemma HalfGapVanishes(p: Modulus, a: int, b: int)
    requires p > 2 && IsField(p) && Vanishes(p, a + 1 * b) && Vanishes(p, a + -1 * b)
    ensures Vanishes(p, b)
  {
    Combine2(p, 1, a + 1 * b, -1, a + -1 * b);
    assert 1 * (a + 1 * b) + -1 * (a + -1 * b) == 2 * b;
    assert 2 % p == 2;
    Cancel(p, 2, b);
  }

  lemma NonzeroReduced(p: Modulus, a: int)
    requires !Vanishes(p, a)
    ensures !Vanishes(p, a % p)
  {
  }

  lemma NonzeroDoubled(p: Modulus, a: int)
    requires p > 2 && IsField(p) && !Vanishes(p, a)
    ensures !Vanishes(p, 2 * a)
  {
    assert 2 % p == 2;
    NonzeroProduct(p, 2, a);
  }

  /** Addition of valid points is defined everywhere: the sum is on the curve with a nonzero denominator. */
  lemma AddValid(c: Curve, q: Point, r: Point)
    requires EdwardsField(c) && Valid(c, q) && Valid(c, r)
    ensures Valid(c, PointAdd(c, q, r))
  {
    AddClosed(c, q, r);
    AddFactorsHalved(c, q, r);
    DenominatorNonzero(c, q, r, 1);
    DenominatorNonzero(c, q, r, -1);
    var t := HalfFactors(c, q, r);
    var f, g := t.f, t.g;
    NonzeroDoubled(c.p, f);
    NonzeroDoubled(c.p, g);
    NonzeroProduct(c.p, 2 * f, 2 * g);
    NonzeroReduced(c.p, (2 * f) * (2 * g));
  }

  lemma DoubleValid(c: Curve, q: Point)
    requires EdwardsField(c) && Valid(c, q)
    ensures Valid(c, PointDouble(c, q)) && SamePoint(c, PointDouble(c, q), PointAdd(c, q, q))
  {
    var r, s := PointDouble(c, q), PointAdd(c, q, q);
    DoubleClosed(c, q);
    AddValid(c, q, q);
    DoubleIsAddSelf(c, q);
    if Vanishes(c.p, r.z) {
      Scale(c.p, -4, r.z);
      Sum(c.p, s.z - -4 * r.z, -4 * r.z);
    }
    ScaledSame(c, -4, r, s);
  }

  lemma ScaledSame(c: Curve, k: int, r: Point, s: Point)
    requires CongPoint(c, s, Scaled(k, r))
    ensures SamePoint(c, r, s)
  {
    CrossScaled(c.p, k, r.x, r.z, s.x, s.z);
    CrossScaled(c.p, k, r.y, r.z, s.y, s.z);
    CrossScaled(c.p, k, r.t, r.z, s.t, s.z);
  }

  lemma CrossScaled(p: Modulus, k: int, a: int, z: int, a': int, z': int)
    requires Cong(p, a', k * a) && Cong(p, z', k * z)
    ensures Cong(p, a * z', a' * z)
  {
    hide Vanishes;
    Combine2(p, a, z' - k * z, -z, a' - k * a);
    ScaledIdentity(k, a, z, a', z');
  }

  lemma ScaledIdentity(k: int, a: int, z: int, a': int, z': int)
    ensures a * (z' - k * z) + -z * (a' - k * a) == a * z' - a' * z
  {
    Distributed(a, z', k * z);
    Distributed(z, a', k * a);
    assert a * (k * z) == z * (k * a);
    assert -z * (a' - k * a) == -(z * (a' - k * a));
  }

  lemma Distributed(a: int, b: int, c: int)
    ensures a * (b - c) == a * b - a * c
  {
  }

  // ----- Equality of points -----

  lemma SameRefl(c: Curve, q: Point)
    ensures SamePoint(c, q, q)
  {
  }

  lemma SameSym(c: Curve, q: Point, r: Point)
    requires SamePoint(c, q, r)
    ensures SamePoint(c, r, q)
  {
    CongSym(c.p, q.x * r.z, r.x * q.z);
    CongSym(c.p, q.y * r.z, r.y * q.z);
    CongSym(c.p, q.t * r.z, r.t * q.z);
  }

  lemma CrossTrans(p: Modulus, a1: int, z1: int, a2: int, z2: int, a3: int, z3: int)
    requires IsField(p) && !Vanishes(p, z2)
    requires Cong(p, a1 * z2, a2 * z1) && Cong(p, a2 * z3, a3 * z2)
    ensures Cong(p, a1 * z3, a3 * z1)
  {
    hide Vanishes;
    Combine2(p, z3, a1 * z2 - a2 * z1, z1, a2 * z3 - a3 * z2);
    assert z3 * (a1 * z2 - a2 * z1) + z1 * (a2 * z3 - a3 * z2) == z2 * (a1 * z3 - a3 * z1);
    Cancel(p, z2, a1 * z3 - a3 * z1);
  }

  lemma SameTrans(c: Curve, q: Point, r: Point, s: Point)
    requires IsField(c.p) && Valid(c, r)
    requires SamePoint(c, q, r) && SamePoint(c, r, s)
    ensures SamePoint(c, q, s)
  {
    CrossTrans(c.p, q.x, q.z, r.x, r.z, s.x, s.z);
    CrossTrans(c.p, q.y, q.z, r.y, r.z, s.y, s.z);
    CrossTrans(c.p, q.t, q.z, r.t, r.z, s.t, s.z);
  }

  /** Products of matching coordinates match, each against the product of the denominators. */
  lemma CrossProduct(p: Modulus, a: int, z: int, a': int, z': int, b: int, w: int, b': int, w': int)
    requires Cong(p, a * z', a' * z) && Cong(p, b * w', b' * w)
    ensures Cong(p, (a * b) * (z' * w'), (a' * b') * (z * w))
  {
    hide Vanishes;
    CongMul(p, a * z', b * w', a' * z, b' * w);
    assert (a * z') * (b * w') == (a * b) * (z' * w');
    assert (a' * z) * (b' * w) == (a' * b') * (z * w);
  }

  lemma CrossLinear(p: Modulus, k: int, a: int, b: int, w: int, a': int, b': int, w': int)
    requires Cong(p, a * w', a' * w) && Cong(p, b * w', b' * w)
    ensures Cong(p, (a + k * b) * w', (a' + k * b') * w)
  {
    hide Vanishes;
    Combine2(p, 1, a * w' - a' * w, k, b * w' - b' * w);
    assert 1 * (a * w' - a' * w) + k * (b * w' - b' * w) == (a + k * b) * w' - (a' + k * b') * w;
  }

  /** Two values proportional to their scales are proportional to each other. */
  lemma CrossRatio(p: Modulus, e: int, g: int, w: int, e': int, g': int, w': int)
    requires IsField(p) && !Vanishes(p, w) && !Vanishes(p, w')
    requires Cong(p, e * w', e' * w) && Cong(p, g * w', g' * w)
    ensures Cong(p, e * g', e' * g)
  {
    hide Vanishes;
    Combine2(p, g' * w, e * w' - e' * w, -(e' * w), g * w' - g' * w);
    RatioIdentity(e, g, w, e', g', w');
    NonzeroProduct(p, w, w');
    Cancel(p, w * w', e * g' - e' * g);
  }

  lemma RatioIdentity(e: int, g: int, w: int, e': int, g': int, w': int)
    ensures (g' * w) * (e * w' - e' * w) + -(e' * w) * (g * w' - g' * w) == (w * w') * (e * g' - e' * g)
  {
    Identities.Exchange(g', w, e, w');
    Identities.Exchange(e', w, g, w');
    assert (g' * w) * (e' * w) == (e' * w) * (g' * w);
    assert (g' * w) * (e * w' - e' * w) == (g' * w) * (e * w') - (g' * w) * (e' * w);
    assert (e' * w) * (g * w' - g' * w) == (e' * w) * (g * w') - (e' * w) * (g' * w);
  }

  /** One half factor, as a combination of two products of coordinates. */
  lemma FactorProportional(p: Modulus, e: int, e': int, k: int, a: int, b: int, z: int, a': int, b': int, z': int,
                           m: int, n: int, w: int, m': int, n': int, w': int)
    requires e == a * b + k * (m * n) && e' == a' * b' + k * (m' * n')
    requires Cong(p, a * z', a' * z) && Cong(p, b * w', b' * w)
    requires Cong(p, m * z', m' * z) && Cong(p, n * w', n' * w)
    ensures Cong(p, e * (z' * w'), e' * (z * w))
  {
    hide Vanishes;
    CrossProduct(p, a, z, a', z', b, w, b', w');
    CrossProduct(p, m, z, m', z', n, w, n', w');
    CrossLinear(p, k, a * b, m * n, z * w, a' * b', m' * n', z' * w');
  }

  lemma HalfFactorsProportional(c: Curve, q: Point, r: Point, q': Point, r': Point)
    requires SamePoint(c, q, q') && SamePoint(c, r, r')
    ensures var s, s' := HalfFactors(c, q, r), HalfFactors(c, q', r'); var w, w' := q.z * r.z, q'.z * r'.z;
      && Cong(c.p, s.e * w', s'.e * w) && Cong(c.p, s.f * w', s'.f * w)
      && Cong(c.p, s.g * w', s'.g * w) && Cong(c.p, s.h * w', s'.h * w)
  {
    hide HalfFactors, Vanishes, Cong;
    CongOf(c.p, q.z * q'.z, q'.z * q.z);
    CongOf(c.p, r.z * r'.z, r'.z * r.z);
    HalfFactorsForm(c, q, r);
    HalfFactorsForm(c, q', r');
    var s, s' := HalfFactors(c, q, r), HalfFactors(c, q', r');
    FactorProportional(c.p, s.e, s'.e, 1, q.x, r.y, q.z, q'.x, r'.y, q'.z, q.y, r.x, r.z, q'.y, r'.x, r'.z);
    FactorProportional(c.p, s.h, s'.h, 1, q.y, r.y, q.z, q'.y, r'.y, q'.z, q.x, r.x, r.z, q'.x, r'.x, r'.z);
    FactorProportional(c.p, s.g, s'.g, c.d, q.z, r.z, q.z, q'.z, r'.z, q'.z, q.t, r.t, r.z, q'.t, r'.t, r'.z);
    FactorProportional(c.p, s.f, s'.f, -c.d, q.z, r.z, q.z, q'.z, r'.z, q'.z, q.t, r.t, r.z, q'.t, r'.t, r'.z);
  }

  lemma HalfFactorsForm(c: Curve, q: Point, r: Point)
    ensures var s := HalfFactors(c, q, r);
      && s.e == q.x * r.y + 1 * (q.y * r.x) && s.h == q.y * r.y + 1 * (q.x * r.x)
      && s.f == q.z * r.z + -c.d * (q.t * r.t) && s.g == q.z * r.z + c.d * (q.t * r.t)
  {
  }

  lemma CrossOuter(p: Modulus, e: int, f: int, g: int, e': int, f': int, g': int)
    requires Cong(p, e * g', e' * g)
    ensures Cong(p, (e * f) * (f' * g'), (e' * f') * (f * g))
  {
    hide Vanishes;
    CongOf(p, f * f', f * f');
    CongMul(p, f * f', e * g', f * f', e' * g);
    Identities.Exchange(f, f', e, g');
    Identities.Exchange(f, f', g, e');
    assert (f * f') * (e * g') == (e * f) * (f' * g');
    assert (f * f') * (e' * g) == (e' * f') * (f * g);
  }

  lemma CrossBoth(p: Modulus, e: int, h: int, f: int, g: int, e': int, h': int, f': int, g': int)
    requires Cong(p, e * g', e' * g) && Cong(p, h * f', h' * f)
    ensures Cong(p, (e * h) * (f' * g'), (e' * h') * (f * g))
  {
    hide Vanishes;
    CongMul(p, e * g', h * f', e' * g, h' * f);
    Identities.Exchange(e, h, g', f');
    Identities.Exchange(e', h', g, f);
  }

  lemma SameOfCong(c: Curve, q: Point, r: Point, q': Point, r': Point)
    requires CongPoint(c, q, r) && CongPoint(c, q', r') && SamePoint(c, r, r')
    ensures SamePoint(c, q, q')
  {
    CrossOfCong(c.p, q.x, q.z, r.x, r.z, q'.x, q'.z, r'.x, r'.z);
    CrossOfCong(c.p, q.y, q.z, r.y, r.z, q'.y, q'.z, r'.y, r'.z);
    CrossOfCong(c.p, q.t, q.z, r.t, r.z, q'.t, q'.z, r'.t, r'.z);
  }

  lemma CrossOfCong(p: Modulus, a: int, z: int, b: int, w: int, a': int, z': int, b': int, w': int)
    requires Cong(p, a, b) && Cong(p, z, w) && Cong(p, a', b') && Cong(p, z', w') && Cong(p, b * w', b' * w)
    ensures Cong(p, a * z', a' * z)
  {
    CongMul(p, a, z', b, w');
    CongMul(p, a', z, b', w);
    CongSym(p, a' * z, b' * w);
    CongTrans(p, a * z', b * w', b' * w);
    CongTrans(p, a * z', b' * w, a' * z);
  }

  lemma DoubledRatio(p: Modulus, e: int, g: int, e': int, g': int)
    requires Cong(p, e * g', e' * g)
    ensures Cong(p, (2 * e) * (2 * g'), (2 * e') * (2 * g))
  {
    Scale(p, 4, e * g' - e' * g);
    assert (2 * e) * (2 * g') - (2 * e') * (2 * g) == 4 * (e * g' - e' * g);
  }

  /** Addition respects equality of points. */
  lemma AddRespectsSame(c: Curve, q: Point, r: Point, q': Point, r': Point)
    requires EdwardsField(c) && Valid(c, q) && Valid(c, r) && Valid(c, q') && Valid(c, r')
    requires SamePoint(c, q, q') && SamePoint(c, r, r')
    ensures SamePoint(c, PointAdd(c, q, r), PointAdd(c, q', r'))
  {
    var w, w' := q.z * r.z, q'.z * r'.z;
    NonzeroProduct(c.p, q.z, r.z);
    NonzeroProduct(c.p, q'.z, r'.z);
    HalfFactorsProportional(c, q, r, q', r');
    var s, s' := HalfFactors(c, q, r), HalfFactors(c, q', r');
    CrossRatio(c.p, s.e, s.g, w, s'.e, s'.g, w');
    CrossRatio(c.p, s.h, s.f, w, s'.h, s'.f, w');
    DoubledRatio(c.p, s.e, s.g, s'.e, s'.g);
    DoubledRatio(c.p, s.h, s.f, s'.h, s'.f);
    AddFactorsHalved(c, q, r);
    AddFactorsHalved(c, q', r');
    FactorsSame(c, AddFactors(c, q, r), AddFactors(c, q', r'));
    ReducePoint(c, Product(AddFactors(c, q, r)));
    ReducePoint(c, Product(AddFactors(c, q', r')));
    SameOfCong(c, PointAdd(c, q, r), Product(AddFactors(c, q, r)), PointAdd(c, q', r'), Product(AddFactors(c, q', r')));
  }

  lemma FactorsSame(c: Curve, s: Factors, s': Factors)
    requires Cong(c.p, s.e * s'.g, s'.e * s.g) && Cong(c.p, s.h * s'.f, s'.h * s.f)
    ensures SamePoint(c, Product(s), Product(s'))
  {
    CrossOuter(c.p, s.e, s.f, s.g, s'.e, s'.f, s'.g);
    CrossOuter(c.p, s.h, s.g, s.f, s'.h, s'.g, s'.f);
    CrossBoth(c.p, s.e, s.h, s.f, s.g, s'.e, s'.h, s'.f, s'.g);
    assert (s.h * s.g) * (s'.g * s'.f) == (s.g * s.h) * (s'.f * s'.g);
    assert (s'.h * s'.g) * (s.g * s.f) == (s'.g * s'.h) * (s.f * s.g);
  }

  lemma AddCommutes(c: Curve, q: Point, r: Point)
    ensures PointAdd(c, q, r) == PointAdd(c, r, q)
  {
    AddFactorsHalved(c, q, r);
    AddFactorsHalved(c, r, q);
    assert HalfFactors(c, q, r) == HalfFactors(c, r, q);
  }

  lemma IdentityValid(c: Curve)
    ensures Valid(c, IDENTITY)
  {
    assert CurveDefect(c, IDENTITY) == 0;
    assert 0 % c.p == 0 && 1 % c.p == 1;
  }

  lemma AddIdentity(c: Curve, q: Point)
    requires OnCurve(c, q)
    ensures SamePoint(c, PointAdd(c, IDENTITY, q), q)
  {
    var s := Factors(2 * q.x, 2 * q.z, 2 * q.z, 2 * q.y);
    AddFactorsHalved(c, IDENTITY, q);
    assert AddFactors(c, IDENTITY, q) == s;
    ReducePoint(c, Product(s));
    CrossIdentity(q);
    Scale(c.p, 4 * q.z, ProductDefect(q));
    assert SamePoint(c, Product(s), q);
    SameOfCong(c, PointAdd(c, IDENTITY, q), Product(s), q, q);
  }

  lemma CrossIdentity(q: Point)
    ensures ((2 * q.x) * (2 * q.z)) * q.z == q.x * ((2 * q.z) * (2 * q.z))
    ensures ((2 * q.z) * (2 * q.y)) * q.z == q.y * ((2 * q.z) * (2 * q.z))
    ensures ((2 * q.x) * (2 * q.y)) * q.z - q.t * ((2 * q.z) * (2 * q.z)) == 4 * q.z * ProductDefect(q)
  {
  }

  // ----- The group -----

  function CurveGroup(c: Curve): Group<Point> {
    Group(q => Valid(c, q), (q, r) => SamePoint(c, q, r), IDENTITY,
          (q, r) => PointAdd(c, q, r), q => PointDouble(c, q))
  }

  /** Associativity is the one law of the group that is not proved here. */
  ghost predicate AssociativeCurve(c: Curve) {
    CurveGroup(c).Associative()
  }

  lemma CurveEquivalence(c: Curve)
    requires EdwardsField(c)
    ensures CurveGroup(c).Equivalence()
  {
    var g := CurveGroup(c);
    forall q | g.valid(q) ensures g.Equal(q, q) {
      SameRefl(c, q);
    }
    forall q, r | g.Equal(q, r) ensures g.Equal(r, q) {
      SameSym(c, q, r);
    }
    forall q, r, s ensures g.Links(q, r, s) {
      if g.Equal(q, r) && g.Equal(r, s) {
        SameTrans(c, q, r, s);
      }
    }
  }

  lemma SumInGroup(c: Curve, q: Point, r: Point)
    requires EdwardsField(c) && Valid(c, q) && Valid(c, r)
    ensures CurveGroup(c).valid(CurveGroup(c).add(q, r))
    ensures CurveGroup(c).Equal(CurveGroup(c).add(q, r), CurveGroup(c).add(r, q))
  {
    AddValid(c, q, r);
    AddCommutes(c, q, r);
    SameRefl(c, PointAdd(c, q, r));
  }

  lemma DoubleInGroup(c: Curve, q: Point)
    requires EdwardsField(c) && Valid(c, q)
    ensures CurveGroup(c).Equal(CurveGroup(c).double(q), CurveGroup(c).add(q, q))
  {
    AddValid(c, q, q);
    DoubleValid(c, q);
  }

  lemma IdentityOnRight(c: Curve, q: Point)
    requires EdwardsField(c) && Valid(c, q)
    ensures Valid(c, PointAdd(c, q, IDENTITY)) && SamePoint(c, PointAdd(c, q, IDENTITY), q)
  {
    hide OnCurve, SamePoint, PointAdd;
    IdentityValid(c);
    AddValid(c, q, IDENTITY);
    assert SamePoint(c, PointAdd(c, IDENTITY, q), q) by {
      AddIdentity(c, q);
    }
    AddCommutes(c, IDENTITY, q);
  }

  lemma IdentityInGroup(c: Curve, q: Point)
    requires EdwardsField(c) && Valid(c, q)
    ensures CurveGroup(c).Equal(CurveGroup(c).add(q, CurveGroup(c).zero), q)
  {
    IdentityOnRight(c, q);
  }

  lemma CurveClosed(c: Curve)
    requires EdwardsField(c)
    ensures CurveGroup(c).Closed()
  {
    hide Valid, SamePoint, PointAdd, PointDouble;
    var g := CurveGroup(c);
    assert g.valid(g.zero) by {
      IdentityValid(c);
    }
    assert forall q, r {:trigger g.add(q, r)} :: g.valid(q) && g.valid(r) ==> g.valid(g.add(q, r)) by {
      forall q, r {:trigger g.add(q, r)} | g.valid(q) && g.valid(r) ensures g.valid(g.add(q, r)) {
        SumInGroup(c, q, r);
      }
    }
    assert forall q {:trigger g.double(q)} :: g.valid(q) ==> g.Equal(g.double(q), g.add(q, q)) by {
      forall q {:trigger g.double(q)} | g.valid(q) ensures g.Equal(g.double(q), g.add(q, q)) {
        DoubleInGroup(c, q);
      }
    }
  }

  lemma CurveCongruent(c: Curve)
    requires EdwardsField(c)
    ensures CurveGroup(c).Congruent()
  {
    var g := CurveGroup(c);
    forall q, r, q', r' {:trigger g.add(q, r), g.add(q', r')} | g.Equal(q, q') && g.Equal(r, r')
      ensures g.Equal(g.add(q, r), g.add(q', r'))
    {
      AddRespectsSame(c, q, r, q', r');
      AddValid(c, q, r);
      AddValid(c, q', r');
    }
  }

  lemma CurveCommutative(c: Curve)
    requires EdwardsField(c)
    ensures CurveGroup(c).Commutative()
  {
    var g := CurveGroup(c);
    forall q, r {:trigger g.add(q, r)} | g.valid(q) && g.valid(r) ensures g.Equal(g.add(q, r), g.add(r, q)) {
      SumInGroup(c, q, r);
    }
    forall q {:trigger g.add(q, g.zero)} | g.valid(q) ensures g.Equal(g.add(q, g.zero), q) {
      IdentityInGroup(c, q);
    }
  }

  /** Over a field with a non-square coefficient, the two formulas form a group once addition associates. */
  lemma CurveLaws(c: Curve)
    requires EdwardsField(c) && AssociativeCurve(c)
    ensures CurveGroup(c).Laws()
  {
    CurveEquivalence(c);
    CurveClosed(c);
    CurveCongruent(c);
    CurveCommutative(c);
  }
}
