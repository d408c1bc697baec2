/** The 32-byte form of a point: affine y, little endian, with the low bit of affine x in the top bit. */
module PointEncoding {
  import opened ModArith
  import opened PrimeField
  import opened Bytes
  import Identities
  import opened Edwards
  import opened EdwardsGroup

  const TOP_BIT: nat := 0x8000000000000000000000000000000000000000000000000000000000000000

  /** A curve whose coordinates fit in 255 bits. */
  predicate FitsEncoding(c: Curve) {
    c.p <= TOP_BIT && c.p % 2 == 1
  }

  lemma TopBitIsPower()
    ensures Pow256(32) == 2 * TOP_BIT && Pow256(31) * 128 == TOP_BIT
  {
    assert Pow256(4) == 0x1_0000_0000;
    assert Pow256(8) == 0x1_0000_0000_0000_0000;
    assert Pow256(12) == 0x1_0000_0000_0000_0000_0000_0000;
    assert Pow256(16) == 0x1_0000_0000_0000_0000_0000_0000_0000_0000;
    assert Pow256(20) == 0x1_0000_0000_0000_0000_0000_0000_0000_0000_0000_0000;
    assert Pow256(24) == 0x1_0000_0000_0000_0000_0000_0000_0000_0000_0000_0000_0000_0000;
    assert Pow256(28) == 0x1_0000_0000_0000_0000_0000_0000_0000_0000_0000_0000_0000_0000_0000_0000;
    assert Pow256(31) == 0x1_0000_0000_0000_0000_0000_0000_0000_0000_0000_0000_0000_0000_0000_0000_0000_00;
  }

  function AffineX(c: Curve, q: Point): (x: nat)
    ensures x < c.p
  {
    q.x * Inverse(c.p, q.z) % c.p
  }

  function AffineY(c: Curve, q: Point): (y: nat)
    ensures y < c.p
  {
    q.y * Inverse(c.p, q.z) % c.p
  }

  /** b |= bit << 7 */
  function OrTopBit(b: byte, bit: nat): byte
    requires bit <= 1
  {
    if bit == 1 && b < 128 then b + 128 else b
  }

  function Encode(c: Curve, q: Point): (s: Bytes)
    requires FitsEncoding(c)
    ensures |s| == 32
  {
    TopBitIsPower();
    var s := ToLittleEndian(AffineY(c, q), 32);
    s[31 := OrTopBit(s[31], AffineX(c, q) % 2)]
  }

  /** The signer's version: the affine coordinates replace the projective ones, and one byte of a mutable
      buffer is updated in place. */
  method EncodePoint(c: Curve, point: Point) returns (encoded: Bytes)
    requires FitsEncoding(c)
    ensures encoded == Encode(c, point)
  {
    TopBitIsPower();
    var x, y, z := point.x, point.y, point.z;
    var inverse := Inverse(c.p, z);
    x, y := x * inverse % c.p, y * inverse % c.p;
    var little := ToLittleEndian(y, 32);
    var buffer := new byte[32](i requires 0 <= i < 32 => little[i]);
    buffer[31] := OrTopBit(buffer[31], x % 2);
    encoded := buffer[..];
  }

  /** The encoding is one number: y with the parity of x on top, so both can be read back. */
  lemma EncodeValue(c: Curve, q: Point)
    requires FitsEncoding(c)
    ensures LittleEndian(Encode(c, q)) == AffineY(c, q) + TOP_BIT * (AffineX(c, q) % 2)
    ensures LittleEndian(Encode(c, q)) % TOP_BIT == AffineY(c, q)
    ensures LittleEndian(Encode(c, q)) / TOP_BIT == AffineX(c, q) % 2
  {
    hide Pow256, LittleEndian, AffineX, AffineY, OrTopBit, ToLittleEndian;
    var y, bit := AffineY(c, q), AffineX(c, q) % 2;
    assert y < Pow256(32) by {
      TopBitIsPower();
    }
    var s := ToLittleEndian(y, 32);
    assert s == s[..31] + [s[31]];
    assert Encode(c, q) == s[..31] + [OrTopBit(s[31], bit)];
    SetTopBit(s[..31], s[31], bit);
    SplitTop(TOP_BIT, y, bit);
  }

  lemma SetTopBit(low: Bytes, last: byte, bit: nat)
    requires |low| == 31 && bit <= 1 && LittleEndian(low + [last]) < TOP_BIT
    ensures LittleEndian(low + [OrTopBit(last, bit)]) == LittleEndian(low + [last]) + TOP_BIT * bit
  {
    hide LittleEndian, Pow256;
    var k := Pow256(31);
    assert k * 128 == TOP_BIT by {
      TopBitIsPower();
    }
    LittleEndianLast(low, last);
    if last as nat >= 128 {
      TopByteWeight(k, last as nat, LittleEndian(low));
    }
    LittleEndianLast(low, OrTopBit(last, bit));
    AddTopBit(k, last as nat, bit);
  }

  lemma TopByteWeight(k: nat, last: nat, low: nat)
    requires last >= 128
    ensures low + k * last >= k * 128
  {
    assert k * last == k * 128 + k * (last - 128);
  }

  lemma AddTopBit(k: nat, last: nat, bit: nat)
    requires bit <= 1
    ensures k * (if bit == 1 then last + 128 else last) == k * last + (k * 128) * bit
  {
  }

  lemma SplitTop(k: nat, y: nat, bit: nat)
    requires y < k && bit <= 1
    ensures (y + k * bit) % k == y && (y + k * bit) / k == bit
  {
    if bit == 0 {
      assert k * bit == 0;
    } else {
      assert k * bit == k;
      assert (y + k) / k == 1 && (y + k) % k == y;
    }
  }

  // ----- Affine coordinates -----

  lemma AffineMeaning(c: Curve, q: Point)
    requires IsField(c.p) && Valid(c, q)
    ensures Cong(c.p, AffineX(c, q) * q.z, q.x) && Cong(c.p, AffineY(c, q) * q.z, q.y)
  {
    Divides(c.p, q.x, q.z, AffineX(c, q));
    Divides(c.p, q.y, q.z, AffineY(c, q));
  }

  lemma Divides(p: Modulus, a: int, z: int, r: int)
    requires IsField(p) && !Vanishes(p, z)
    requires r == a * Inverse(p, z) % p
    ensures Cong(p, r * z, a)
  {
    hide Vanishes;
    var v := Inverse(p, z);
    Reduced(p, a * v);
    Combine2(p, z, r - a * v, a, z * v - 1);
    Identities.QuotientIdentity(a, z, r, v);
  }

  /** Quotients agree as reduced residues exactly when they agree by cross-multiplication. */
  lemma AffineUnique(p: Modulus, r: nat, s: nat, a: int, z: int, b: int, w: int)
    requires IsField(p) && !Vanishes(p, z) && !Vanishes(p, w) && r < p && s < p
    requires Cong(p, r * z, a) && Cong(p, s * w, b)
    ensures r == s <==> Cong(p, a * w, b * z)
  {
    hide Vanishes, IsField;
    RatioGapVanishes(p, r, s, z, w, a, b);
    NonzeroProduct(p, z, w);
    var k, gap := z * w, a * w - b * z;
    UniqueFromGap(p, r, s, k, gap);
  }

  lemma RatioGapVanishes(p: Modulus, r: int, s: int, z: int, w: int, a: int, b: int)
    requires Vanishes(p, r * z - a) && Vanishes(p, s * w - b)
    ensures Vanishes(p, (z * w) * (r - s) - (a * w - b * z))
  {
    hide *;
    Combine2(p, w, r * z - a, -z, s * w - b);
    Identities.RatioGap(r, s, z, w, a, b);
    assert -z * (s * w - b) == -(z * (s * w - b));
  }

  lemma UniqueFromGap(p: Modulus, r: nat, s: nat, k: int, gap: int)
    requires IsField(p) && !Vanishes(p, k) && r < p && s < p
    requires Vanishes(p, k * (r - s) - gap)
    ensures r == s <==> Vanishes(p, gap)
  {
    hide *;
    if r == s {
      assert k * (r - s) - gap == -gap;
      Scale(p, -1, -gap);
      assert -1 * -gap == gap;
    }
    if Vanishes(p, gap) {
      Sum(p, k * (r - s) - gap, gap);
      assert (k * (r - s) - gap) + gap == k * (r - s);
      Cancel(p, k, r - s);
      SmallCong(p, r, s);
    }
  }

  lemma SmallCong(p: Modulus, r: nat, s: nat)
    requires r < p && s < p && Vanishes(p, r - s)
    ensures r == s
  {
    CongReducedEqual(p, r, s);
  }

  // ----- The encoding identifies points -----

  lemma SameByAffine(c: Curve, q: Point, r: Point)
    requires IsField(c.p) && Valid(c, q) && Valid(c, r)
    ensures AffineX(c, q) == AffineX(c, r) <==> Cong(c.p, q.x * r.z, r.x * q.z)
    ensures AffineY(c, q) == AffineY(c, r) <==> Cong(c.p, q.y * r.z, r.y * q.z)
  {
    AffineMeaning(c, q);
    AffineMeaning(c, r);
    AffineUnique(c.p, AffineX(c, q), AffineX(c, r), q.x, q.z, r.x, r.z);
    AffineUnique(c.p, AffineY(c, q), AffineY(c, r), q.y, q.z, r.y, r.z);
  }

  /** t is determined by the affine coordinates, through XY = ZT. */
  lemma ThirdCoordinate(c: Curve, q: Point, r: Point)
    requires IsField(c.p) && Valid(c, q) && Valid(c, r)
    requires Cong(c.p, q.x * r.z, r.x * q.z) && Cong(c.p, q.y * r.z, r.y * q.z)
    ensures SamePoint(c, q, r)
  {
    hide Vanishes;
    var k, a, b := q.z * r.z, q.x * q.y, r.x * r.y;
    CongMul(c.p, q.x * r.z, q.y * r.z, r.x * q.z, r.y * q.z);
    Identities.Exchange(q.x, r.z, q.y, r.z);
    Identities.Exchange(r.x, q.z, r.y, q.z);
    assert Vanishes(c.p, a * (r.z * r.z) - b * (q.z * q.z));
    Combine2(c.p, r.z * r.z, a - q.z * q.t, -(q.z * q.z), b - r.z * r.t);
    Combine2(c.p, 1, a * (r.z * r.z) - b * (q.z * q.z), -1,
             r.z * r.z * (a - q.z * q.t) + -(q.z * q.z) * (b - r.z * r.t));
    ThirdIdentity(a, b, q.z, r.z, q.t, r.t);
    NonzeroProduct(c.p, q.z, r.z);
    Cancel(c.p, k, q.t * r.z - r.t * q.z);
  }

  lemma ThirdIdentity(a: int, b: int, z: int, w: int, t: int, u: int)
    ensures 1 * (a * (w * w) - b * (z * z)) + -1 * (w * w * (a - z * t) + -(z * z) * (b - w * u))
         == (z * w) * (t * w - u * z)
  {
    assert w * w * (a - z * t) == w * w * a - w * w * (z * t);
    assert z * z * (b - w * u) == z * z * b - z * z * (w * u);
    assert -(z * z) * (b - w * u) == -(z * z * (b - w * u));
    assert w * w * (z * t) == (z * w) * (t * w) && z * z * (w * u) == (z * w) * (u * z);
    assert (z * w) * (t * w - u * z) == (z * w) * (t * w) - (z * w) * (u * z);
  }

  lemma SameIsAffine(c: Curve, q: Point, r: Point)
    requires IsField(c.p) && Valid(c, q) && Valid(c, r)
    ensures SamePoint(c, q, r) <==> AffineX(c, q) == AffineX(c, r) && AffineY(c, q) == AffineY(c, r)
  {
    SameByAffine(c, q, r);
    if AffineX(c, q) == AffineX(c, r) && AffineY(c, q) == AffineY(c, r) {
      ThirdCoordinate(c, q, r);
    }
  }

  lemma AffineSquare(p: Modulus, x: int, z: int, a: int)
    requires Cong(p, x * z, a)
    ensures Cong(p, (x * x) * (z * z), a * a)
  {
    CongMul(p, x * z, x * z, a, a);
    Identities.SquareOf(x, z);
  }

  /** The affine coordinates satisfy the affine curve equation. */
  lemma AffineOnCurve(c: Curve, q: Point)
    requires IsField(c.p) && Valid(c, q)
    ensures var u, v := AffineX(c, q) * AffineX(c, q), AffineY(c, q) * AffineY(c, q);
      Vanishes(c.p, v - u - 1 - c.d * (u * v))
  {
    var u, v := AffineX(c, q) * AffineX(c, q), AffineY(c, q) * AffineY(c, q);
    var x2, y2, z2, t2 := q.x * q.x, q.y * q.y, q.z * q.z, q.t * q.t;
    AffineMeaning(c, q);
    AffineSquare(c.p, AffineX(c, q), q.z, q.x);
    AffineSquare(c.p, AffineY(c, q), q.z, q.y);
    CongMul(c.p, u * z2, v * z2, x2, y2);
    CongMul(c.p, q.x * q.y, q.x * q.y, q.z * q.t, q.z * q.t);
    Identities.SquareOf(q.x, q.y);
    Identities.SquareOf(q.z, q.t);
    NonzeroProduct(c.p, q.z, q.z);
    NonzeroProduct(c.p, z2, z2);
    AffineFromSquares(c.p, c.d, u, v, x2, y2, z2, t2);
  }

  lemma AffineFromSquares(p: Modulus, d: int, u: int, v: int, x2: int, y2: int, z2: int, t2: int)
    requires IsField(p) && !Vanishes(p, z2 * z2)
    requires Vanishes(p, v * z2 - y2) && Vanishes(p, u * z2 - x2) && Vanishes(p, (u * z2) * (v * z2) - x2 * y2)
    requires Vanishes(p, y2 - x2 - (z2 + d * t2)) && Vanishes(p, x2 * y2 - z2 * t2)
    ensures Vanishes(p, v - u - 1 - d * (u * v))
  {
    hide *;
    var k := z2 * (v * z2 - y2) + -z2 * (u * z2 - x2) + -d * ((u * z2) * (v * z2) - x2 * y2)
             + z2 * (y2 - x2 - (z2 + d * t2));
    Combine4(p, z2, v * z2 - y2, -z2, u * z2 - x2, -d, (u * z2) * (v * z2) - x2 * y2, z2, y2 - x2 - (z2 + d * t2));
    Combine2(p, 1, k, -d, x2 * y2 - z2 * t2);
    Identities.AffineCombination(u, v, x2, y2, z2, t2, d);
    assert 1 * k + -d * (x2 * y2 - z2 * t2) == k - d * (x2 * y2 - z2 * t2);
    Cancel(p, z2 * z2, v - u - 1 - d * (u * v));
  }

  lemma OrdinateDenominator(c: Curve, y: int)
    requires EdwardsField(c)
    ensures !Vanishes(c.p, 1 + c.d * (y * y))
  {
    assert 1 % c.p == 1;
    if Vanishes(c.p, 1 + c.d * (y * y)) {
      var i :| Vanishes(c.p, i * i + 1);
      OrdinateRoot(c, y, i);
      OneVanishes(c.p, c.d, y);
    }
  }

  lemma OneVanishes(p: Modulus, d: int, y: int)
    requires Vanishes(p, y) && Vanishes(p, 1 + d * (y * y))
    ensures Vanishes(p, 1)
  {
    hide *;
    Combine2(p, 1, 1 + d * (y * y), -(d * y), y);
    assert 1 * (1 + d * (y * y)) + -(d * y) * y == 1 by {
      assert (d * y) * y == d * (y * y);
    }
  }

  lemma OrdinateRoot(c: Curve, y: int, i: int)
    requires NonSquare(c) && Vanishes(c.p, 1 + c.d * (y * y)) && Vanishes(c.p, i * i + 1)
    ensures Vanishes(c.p, y)
  {
    Combine2(c.p, 1, 1 + c.d * (y * y), -1, i * i + 1);
    assert RootRelation(c, y, i);
  }

  /** Residues with equal squares and equal parity are equal, because the modulus is odd. */
  lemma SquareAndParity(p: Modulus, x: nat, w: nat)
    requires IsField(p) && p % 2 == 1 && x < p && w < p
    requires Vanishes(p, w * w - x * x) && x % 2 == w % 2
    ensures x == w
  {
    assert w * w - x * x == (w - x) * (w + x);
    if Vanishes(p, w - x) {
      SmallCong(p, w, x);
    } else {
      Cancel(p, w - x, w + x);
      OddSum(p, x, w);
    }
  }

  lemma OddSum(p: Modulus, x: nat, w: nat)
    requires p % 2 == 1 && x < p && w < p && x % 2 == w % 2 && Vanishes(p, w + x)
    ensures x == w
  {
    var k := Quotient(p, w + x);
    assert p * (k - 1) == w + x - p;
    if k != 1 {
      NonzeroMultiple(p, k - 1);
    }
  }

  /** Two valid points have the same 32 bytes exactly when they are the same point. */
  lemma EncodeIdentifies(c: Curve, q: Point, r: Point)
    requires EdwardsField(c) && FitsEncoding(c) && Valid(c, q) && Valid(c, r)
    ensures Encode(c, q) == Encode(c, r) <==> SamePoint(c, q, r)
  {
    SameIsAffine(c, q, r);
    if Encode(c, q) == Encode(c, r) {
      EncodeValue(c, q);
      EncodeValue(c, r);
      SameParity(c, q, r);
    }
  }

  lemma SameParity(c: Curve, q: Point, r: Point)
    requires EdwardsField(c) && FitsEncoding(c) && Valid(c, q) && Valid(c, r)
    requires AffineY(c, q) == AffineY(c, r) && AffineX(c, q) % 2 == AffineX(c, r) % 2
    ensures AffineX(c, q) == AffineX(c, r)
  {
    var x, w, y := AffineX(c, q), AffineX(c, r), AffineY(c, q);
    AffineOnCurve(c, q);
    AffineOnCurve(c, r);
    OrdinateDenominator(c, y);
    EqualSquares(c.p, c.d, x * x, w * w, y * y);
    SquareAndParity(c.p, x, w);
  }

  lemma EqualSquares(p: Modulus, d: int, u: int, w: int, v: int)
    requires IsField(p) && !Vanishes(p, 1 + d * v)
    requires Vanishes(p, v - u - 1 - d * (u * v)) && Vanishes(p, v - w - 1 - d * (w * v))
    ensures Vanishes(p, w - u)
  {
    hide *;
    Combine2(p, 1, v - u - 1 - d * (u * v), -1, v - w - 1 - d * (w * v));
    Identities.SharedOrdinate(u, w, v, d);
    Cancel(p, 1 + d * v, w - u);
  }
}
