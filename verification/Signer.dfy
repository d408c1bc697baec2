/** The release signer: scalar multiplication of the base point, secret scalars, and signatures.
    SHA-512 is a parameter; inversion is pow(z, p - 2, p), as the signer computes it. */
module Signer {
  import opened ModArith
  import opened PrimeField
  import opened Bits
  import opened Bytes
  import opened Edwards
  import opened EdwardsGroup
  import opened Groups
  import opened PointEncoding

  datatype Suite = Suite(curve: Curve, base: Point, order: nat)

  /** What every suite can be checked for by evaluation: its shape and that the base point is on the curve. */
  ghost predicate WellFormed(k: Suite) {
    && k.curve.p > 2
    && HasRootOfMinusOne(k.curve.p)
    && FitsEncoding(k.curve)
    && Valid(k.curve, k.base)
    && 0 < k.order <= TOP_BIT
  }

  /** What is taken as given: the modulus is prime, the coefficient is not a square, addition associates, and
      the order of the base point. */
  ghost predicate CurveFacts(k: Suite) {
    && IsPrime(k.curve.p)
    && NonSquare(k.curve)
    && AssociativeCurve(k.curve)
    && SamePoint(k.curve, CurveGroup(k.curve).Times(k.order, k.base), IDENTITY)
  }

  lemma GroupLaws(k: Suite)
    requires WellFormed(k) && CurveFacts(k)
    ensures EdwardsField(k.curve) && CurveGroup(k.curve).Laws() && CurveGroup(k.curve).valid(k.base)
    ensures CurveGroup(k.curve).Equal(CurveGroup(k.curve).Times(k.order, k.base), IDENTITY)
  {
    hide Valid, SamePoint, PointAdd, PointDouble;
    PrimeIsField(k.curve.p);
    CurveLaws(k.curve);
    CurveGroup(k.curve).TimesValid(k.order, k.base);
    IdentityValid(k.curve);
  }

  // ----- Scalar multiplication -----

  function Multiply(k: Suite, scalar: nat): Point {
    CurveGroup(k.curve).DoubleAndAdd(scalar, IDENTITY, k.base)
  }

  method ScalarMultiply(k: Suite, scalar: nat) returns (result: Point)
    requires OnCurve(k.curve, k.base)
    ensures result == Multiply(k, scalar)
    ensures OnCurve(k.curve, result)
  {
    hide OnCurve, PointAdd, PointDouble, Valid, SamePoint;
    var point := k.base;
    var rest := scalar;
    result := IDENTITY;
    IdentityOnCurve(k.curve);
    while rest != 0
      invariant OnCurve(k.curve, result) && OnCurve(k.curve, point)
      invariant CurveGroup(k.curve).DoubleAndAdd(rest, result, point) == Multiply(k, scalar)
    {
      if rest % 2 == 1 {
        AddClosed(k.curve, result, point);
        result := PointAdd(k.curve, result, point);
      }
      DoubleClosed(k.curve, point);
      point := PointDouble(k.curve, point);
      rest := rest / 2;
    }
  }

  lemma IdentityOnCurve(c: Curve)
    ensures OnCurve(c, IDENTITY)
  {
    IdentityValid(c);
  }

  /** Double-and-add of any scalar is the scalar-fold sum of the base point. */
  lemma MultiplyIsTimes(k: Suite, scalar: nat)
    requires WellFormed(k) && CurveFacts(k)
    ensures CurveGroup(k.curve).Equal(Multiply(k, scalar), CurveGroup(k.curve).Times(scalar, k.base))
  {
    hide Valid, SamePoint, PointAdd, PointDouble, CurveFacts, WellFormed;
    var g := CurveGroup(k.curve);
    GroupLaws(k);
    g.DoubleAndAddIsTimes(scalar, IDENTITY, k.base);
    g.TimesValid(scalar, k.base);
    var n := g.Times(scalar, k.base);
    assert g.Equal(g.add(IDENTITY, n), g.add(n, g.zero));
    g.Chain(Multiply(k, scalar), g.add(IDENTITY, n), g.add(n, g.zero));
    g.Chain(Multiply(k, scalar), g.add(n, g.zero), n);
  }

  // ----- Secret scalars -----

  /** (raw & (top - 8)) | top, for a power of two `top` above the low three bits. */
  function ClampBelow(raw: nat, top: nat): (scalar: nat)
    requires top > 0
  {
    raw % top / 8 * 8 + top
  }

  lemma ClampShape(raw: nat, top: nat, k: nat)
    requires top == 8 * k && k > 0
    ensures ClampBelow(raw, top) % 8 == 0 && top <= ClampBelow(raw, top) < 2 * top
  {
    var m := raw % top;
    assert m / 8 * 8 <= m;
    assert (m / 8 * 8 + 8 * k) % 8 == 0;
  }

  /** scalar &= (1 << 254) - 8; scalar |= 1 << 254 */
  function Clamp(raw: nat): nat {
    ClampBelow(raw, Pow2(254))
  }

  /** Secret scalars are multiples of the cofactor with their top bit fixed (section 5.1.5 of RFC 8032). */
  lemma ClampRange(raw: nat)
    ensures Clamp(raw) % 8 == 0 && Pow2(254) <= Clamp(raw) < Pow2(255)
  {
    hide ClampBelow;
    assert Pow2(254) == 2 * Pow2(253) && Pow2(253) == 2 * Pow2(252) && Pow2(252) == 2 * Pow2(251);
    ClampShape(raw, Pow2(254), Pow2(251));
    assert Pow2(255) == 2 * Pow2(254);
  }

  /** Clamping bit by bit: three bits cleared, one set, the bits between kept, nothing above. */
  lemma ClampBits(raw: nat, j: nat)
    ensures Bit(Clamp(raw), j) <==> j == 254 || (3 <= j < 254 && Bit(raw, j))
  {
    hide Bit, Pow2;
    var low := raw % Pow2(254);
    BitOfLow(raw, 254, j);
    BitOfEighths(low, j);
    assert low / 8 * 8 <= low;
    BitOfTop(low / 8 * 8, 254, j);
  }

  // ----- Signatures -----

  type Digest64 = s: Bytes | |s| == 64 witness seq(64, _ => 0)

  function SecretScalar(sha512: Bytes -> Digest64, seed: Bytes): nat {
    Clamp(LittleEndian(sha512(seed)[..32]))
  }

  function PublicKey(k: Suite, sha512: Bytes -> Digest64, seed: Bytes): Bytes
    requires FitsEncoding(k.curve)
  {
    Encode(k.curve, Multiply(k, SecretScalar(sha512, seed)))
  }

  function Nonce(k: Suite, sha512: Bytes -> Digest64, seed: Bytes, content: Bytes): nat
    requires k.order > 0
  {
    LittleEndian(sha512(sha512(seed)[32..] + content)) % k.order
  }

  function Challenge(sha512: Bytes -> Digest64, commitment: Bytes, public: Bytes, content: Bytes): nat {
    LittleEndian(sha512(commitment + public + content))
  }

  /** The scalar half of a signature. */
  function Response(k: Suite, nonce: nat, challenge: nat, scalar: nat): (s: nat)
    requires 0 < k.order
    ensures s < k.order
  {
    (nonce + challenge % k.order * scalar) % k.order
  }

  function SignSeed(k: Suite, sha512: Bytes -> Digest64, seed: Bytes, content: Bytes): Bytes
    requires FitsEncoding(k.curve) && 0 < k.order <= TOP_BIT
  {
    TopBitIsPower();
    var scalar := SecretScalar(sha512, seed);
    var nonce := Nonce(k, sha512, seed, content);
    var commitment := Encode(k.curve, Multiply(k, nonce));
    var challenge := Challenge(sha512, commitment, PublicKey(k, sha512, seed), content);
    commitment + ToLittleEndian(Response(k, nonce, challenge, scalar), 32)
  }

  /** The verifier's acceptance condition (section 5.1.7 of RFC 8032): both halves decode, the scalar is in
      range, and [S]B = R + [k]A for the hash k of R, the public key and the content. */
  ghost predicate Verifies(k: Suite, sha512: Bytes -> Digest64, public: Bytes, content: Bytes, signature: Bytes)
    requires FitsEncoding(k.curve)
  {
    && |signature| == 64
    && LittleEndian(signature[32..]) < k.order
    && exists a, r ::
         && Valid(k.curve, a) && Encode(k.curve, a) == public
         && Valid(k.curve, r) && Encode(k.curve, r) == signature[..32]
         && SamePoint(k.curve, Multiply(k, LittleEndian(signature[32..])),
                      PointAdd(k.curve, r,
                               CurveGroup(k.curve).Times(LittleEndian(sha512(signature[..32] + public + content)), a)))
  }

  lemma ReduceChallenge(order: nat, nonce: nat, challenge: nat, scalar: nat)
    requires order > 1
    ensures (nonce + challenge % order * scalar) % order == (nonce + challenge * scalar) % order
  {
    var q, r := challenge / order, challenge % order;
    assert challenge == order * q + r;
    assert challenge * scalar == order * (q * scalar) + r * scalar by {
      assert (order * q + r) * scalar == order * q * scalar + r * scalar;
      assert order * q * scalar == order * (q * scalar);
    }
    MultipleVanishes(order, q * scalar);
    CongReducedEqual(order, nonce + challenge * scalar, nonce + r * scalar);
  }

  /** The signing equation: [S]B = [r]B + [k][s]B for every nonce, challenge and secret. */
  lemma SigningEquation(k: Suite, nonce: nat, challenge: nat, scalar: nat)
    requires WellFormed(k) && CurveFacts(k) && k.order > 1
    ensures CurveGroup(k.curve).Equal(
              Multiply(k, Response(k, nonce, challenge, scalar)),
              PointAdd(k.curve, Multiply(k, nonce), CurveGroup(k.curve).Times(challenge, Multiply(k, scalar))))
  {
    hide Valid, SamePoint, PointAdd, PointDouble, Multiply;
    var g := CurveGroup(k.curve);
    var s := Response(k, nonce, challenge, scalar);
    GroupLaws(k);
    ResponseInGroup(k, nonce, challenge, scalar);
    MultiplyIsTimes(k, s);
    MultiplyIsTimes(k, nonce);
    MultiplyIsTimes(k, scalar);
    EquationTransfer(g, Multiply(k, s), g.Times(s, k.base), Multiply(k, nonce), g.Times(nonce, k.base),
                     challenge, Multiply(k, scalar), g.Times(scalar, k.base));
  }

  lemma ResponseInGroup(k: Suite, nonce: nat, challenge: nat, scalar: nat)
    requires k.order > 1 && CurveGroup(k.curve).Laws() && CurveGroup(k.curve).valid(k.base)
    requires CurveGroup(k.curve).Equal(CurveGroup(k.curve).Times(k.order, k.base), IDENTITY)
    ensures CurveGroup(k.curve).Equal(
              CurveGroup(k.curve).Times(Response(k, nonce, challenge, scalar), k.base),
              PointAdd(k.curve, CurveGroup(k.curve).Times(nonce, k.base),
                       CurveGroup(k.curve).Times(challenge, CurveGroup(k.curve).Times(scalar, k.base))))
  {
    hide Valid, SamePoint, PointAdd, PointDouble;
    var sum: nat := nonce + challenge * scalar;
    assert Response(k, nonce, challenge, scalar) == sum % k.order by {
      ReduceChallenge(k.order, nonce, challenge, scalar);
    }
    hide Response;
    CurveGroup(k.curve).TimesAffineModulo(sum, nonce, challenge, scalar, k.order, k.base);
  }

  lemma EquationTransfer<P(!new)>(g: Group<P>, left: P, left': P, r: P, r': P, challenge: nat, a: P, a': P)
    requires g.Laws()
    requires g.Equal(left, left') && g.Equal(r, r') && g.Equal(a, a')
    requires g.Equal(left', g.add(r', g.Times(challenge, a')))
    ensures g.Equal(left, g.add(r, g.Times(challenge, a)))
  {
    g.TimesRespectsEqual(challenge, a, a');
    var sum, sum' := g.add(r, g.Times(challenge, a)), g.add(r', g.Times(challenge, a'));
    assert g.Equal(sum, sum') && g.Equal(sum', sum);
    g.Chain(left, left', sum');
    g.Chain(left, sum', sum);
  }

  /** Every signature the signer produces is accepted by the verification equation. */
  lemma SignatureVerifies(k: Suite, sha512: Bytes -> Digest64, seed: Bytes, content: Bytes)
    requires WellFormed(k) && CurveFacts(k) && k.order > 1
    ensures Verifies(k, sha512, PublicKey(k, sha512, seed), content, SignSeed(k, sha512, seed, content))
  {
    hide Valid, SamePoint, PointAdd, PointDouble, Multiply, Encode, Nonce, SecretScalar, Response, LittleEndian;
    TopBitIsPower();
    var scalar, nonce := SecretScalar(sha512, seed), Nonce(k, sha512, seed, content);
    var a, r := Multiply(k, scalar), Multiply(k, nonce);
    var public, commitment := PublicKey(k, sha512, seed), Encode(k.curve, r);
    var challenge := Challenge(sha512, commitment, public, content);
    var s := Response(k, nonce, challenge, scalar);
    var signature := SignSeed(k, sha512, seed, content);
    assert signature[..32] == commitment && signature[32..] == ToLittleEndian(s, 32);
    SigningEquation(k, nonce, challenge, scalar);
    MultiplyIsTimes(k, scalar);
    MultiplyIsTimes(k, nonce);
    assert Valid(k.curve, a) && Encode(k.curve, a) == public;
    assert Valid(k.curve, r) && Encode(k.curve, r) == signature[..32];
  }

  // ----- The signature, by what the standard says of it -----

  /** The secret scalar, bit by bit: the first half of the seed's hash, with the bits that section 5.1.5 of RFC 8032
      fixes. */
  ghost predicate IsSecret(sha512: Bytes -> Digest64, seed: Bytes, s: nat) {
    forall j: nat :: Bit(s, j) <==> j == 254 || (3 <= j < 254 && Bit(LittleEndian(sha512(seed)[..32]), j))
  }

  lemma SecretIs(sha512: Bytes -> Digest64, seed: Bytes, s: nat)
    ensures IsSecret(sha512, seed, s) <==> s == SecretScalar(sha512, seed)
  {
    hide Bit, Clamp, LittleEndian;
    var scalar := SecretScalar(sha512, seed);
    forall j: nat
      ensures Bit(scalar, j) <==> j == 254 || (3 <= j < 254 && Bit(LittleEndian(sha512(seed)[..32]), j))
    {
      ClampBits(LittleEndian(sha512(seed)[..32]), j);
    }
    if IsSecret(sha512, seed, s) {
      assert forall j: nat :: Bit(s, j) <==> Bit(scalar, j);
      BitsDetermine(s, scalar);
    }
  }

  lemma EncodeMultiple(k: Suite, n: nat, m: nat)
    requires WellFormed(k) && CurveFacts(k) && n == m % k.order
    ensures Encode(k.curve, Multiply(k, m)) == Encode(k.curve, CurveGroup(k.curve).Times(m, k.base))
    ensures Encode(k.curve, Multiply(k, n)) == Encode(k.curve, CurveGroup(k.curve).Times(m, k.base))
  {
    hide Valid, SamePoint, PointAdd, PointDouble, Multiply, Encode;
    var g := CurveGroup(k.curve);
    GroupLaws(k);
    MultiplyIsTimes(k, m);
    MultiplyIsTimes(k, n);
    g.TimesModuloOrder(m, k.order, k.base);
    g.Chain(Multiply(k, n), g.Times(n, k.base), g.Times(m, k.base));
    EncodeIdentifies(k.curve, Multiply(k, m), g.Times(m, k.base));
    EncodeIdentifies(k.curve, Multiply(k, n), g.Times(m, k.base));
  }

  /** The public key is the encoded s-fold sum of the base point. */
  lemma PublicKeyIs(k: Suite, sha512: Bytes -> Digest64, seed: Bytes, s: nat)
    requires WellFormed(k) && CurveFacts(k) && IsSecret(sha512, seed, s)
    ensures PublicKey(k, sha512, seed) == Encode(k.curve, CurveGroup(k.curve).Times(s, k.base))
  {
    hide SecretScalar, IsSecret, Multiply, Encode, CurveFacts;
    SecretIs(sha512, seed, s);
    EncodeMultiple(k, s % k.order, s);
  }

  /** A signature is R and S as section 5.1.6 of RFC 8032 defines them: r is the hash of the last half of the seed's
      hash and the content, R the encoded r-fold sum of the base point, and S is r plus the hash of R, the public key
      and the content times the secret scalar, modulo the order. */
  lemma SignatureIs(k: Suite, sha512: Bytes -> Digest64, seed: Bytes, content: Bytes, s: nat)
    requires WellFormed(k) && CurveFacts(k) && k.order > 1 && IsSecret(sha512, seed, s)
    ensures var signature, public := SignSeed(k, sha512, seed, content), PublicKey(k, sha512, seed);
            var r := LittleEndian(sha512(sha512(seed)[32..] + content));
            && |signature| == 64
            && signature[..32] == Encode(k.curve, CurveGroup(k.curve).Times(r, k.base))
            && LittleEndian(signature[32..])
               == (r + LittleEndian(sha512(signature[..32] + public + content)) * s) % k.order
  {
    hide Valid, SamePoint, PointAdd, PointDouble, Multiply, Encode, SecretScalar, IsSecret, LittleEndian, CurveFacts;
    TopBitIsPower();
    SecretIs(sha512, seed, s);
    var r := LittleEndian(sha512(sha512(seed)[32..] + content));
    EncodeMultiple(k, r % k.order, r);
    var signature, public := SignSeed(k, sha512, seed, content), PublicKey(k, sha512, seed);
    var commitment := Encode(k.curve, Multiply(k, r % k.order));
    var challenge := LittleEndian(sha512(commitment + public + content));
    assert signature[..32] == commitment;
    assert LittleEndian(signature[32..]) == Response(k, r % k.order, challenge, s) by {
      assert signature[32..] == ToLittleEndian(Response(k, r % k.order, challenge, s), 32);
    }
    ReduceNonce(k.order, r, challenge, s);
  }

  lemma ReduceNonce(order: nat, r: nat, challenge: nat, s: nat)
    requires order > 1
    ensures (r % order + challenge % order * s) % order == (r + challenge * s) % order
  {
    ReduceChallenge(order, r % order, challenge, s);
    Reduced(order, r);
    assert (r % order + challenge * s) - (r + challenge * s) == r % order - r;
    CongReducedEqual(order, r % order + challenge * s, r + challenge * s);
  }

  /** The first half of the seed's hash makes the public key, the last half the commitment. */
  lemma HalvesApart(k: Suite, one: Bytes -> Digest64, other: Bytes -> Digest64, seed: Bytes, content: Bytes)
    requires FitsEncoding(k.curve) && 0 < k.order <= TOP_BIT
    ensures one(seed)[..32] == other(seed)[..32] ==> PublicKey(k, one, seed) == PublicKey(k, other, seed)
    ensures one(one(seed)[32..] + content) == other(other(seed)[32..] + content) ==>
              SignSeed(k, one, seed, content)[..32] == SignSeed(k, other, seed, content)[..32]
  {
    hide Encode, Multiply, Clamp, LittleEndian, Response;
    TopBitIsPower();
  }
}
