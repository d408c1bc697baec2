/** The constants of the signer (section 5.1 of RFC 8032), with the equations that define them. Every fact is a
    product of integers with an explicit cofactor. */
module Ed25519 {
  import opened ModArith
  import opened PrimeField
  import opened Bits
  import opened Bytes
  import opened Edwards
  import opened EdwardsGroup
  import opened Groups
  import opened PointEncoding
  import opened Signer

  const FIELD: Modulus := 0x7fffffffffffffffffffffffffffffffffffffffffffffffffffffffffffffed
  const ORDER: nat := 0x1000000000000000000000000000000014def9dea2f79cd65812631a5cf5d3ed
  const CURVE_D: nat := 37095705934669439343138083508754565189542113879843219016388785533085940283555
  const BASE_X: nat := 15112221349535400772501151409588531511454012693041857206046113283949847762202
  const BASE_Y: nat := 46316835694926478169428394003475163141307993866256225615783033603165251855960
  const BASE_T: nat := 46827403850823179245072216630277197565144205554125654976674165829533817101731
  const BASE := Point(BASE_X, BASE_Y, 1, BASE_T)
  const ED25519 := Suite(Curve(FIELD, CURVE_D), BASE, ORDER)

  const ROOT: nat := 19681161376707505956807079304988542015446066515923890162744021073123829784752

  lemma {:induction false} Pow2OfBytes(k: nat)
    ensures Pow2(8 * k) == Pow256(k)
  {
    if k > 0 {
      Pow2OfBytes(k - 1);
      EightMore(8 * (k - 1));
    }
  }

  lemma EightMore(j: nat)
    ensures Pow2(j + 8) == 256 * Pow2(j)
  {
    assert Pow2(j + 2) == 2 * Pow2(j + 1) && Pow2(j + 4) == 2 * Pow2(j + 3) && Pow2(j + 6) == 2 * Pow2(j + 5);
  }

  lemma Even(n: nat, h: nat)
    requires n == 2 * h
    ensures n % 2 == 0
  {
  }

  /** The modulus and the order are the numbers the standard writes as 2^255 - 19 and 2^252 + 27742..., and the base
      point is the one with y = 4/5 and even x. */
  lemma ConstantsAre()
    ensures FIELD == Pow2(255) - 19 && ORDER == Pow2(252) + 27742317777372353535851937790883648493
    ensures Vanishes(FIELD, 5 * BASE_Y - 4) && BASE_X % 2 == 0 && BASE_X < FIELD && BASE_Y < FIELD
  {
    hide Vanishes;
    TopBitIsPower();
    Pow2OfBytes(31);
    assert Pow2(251) == 8 * Pow2(248) by {
      assert Pow2(249) == 2 * Pow2(248) && Pow2(251) == 2 * Pow2(250);
    }
    assert Pow2(252) == 2 * Pow2(251);
    assert Pow2(255) == 2 * Pow2(254) && Pow2(254) == 2 * Pow2(253);
    assert 5 * BASE_Y - 4 == FIELD * 4;
    Multiple(FIELD, 5 * BASE_Y - 4, 4);
    Even(BASE_X, 7556110674767700386250575704794265755727006346520928603023056641974923881101);
  }

  lemma Multiple(p: Modulus, a: int, k: int)
    requires a == p * k
    ensures Vanishes(p, a)
  {
    MultipleVanishes(p, k);
  }

  lemma BaseIntegers()
    ensures BASE_X * BASE_Y
         == FIELD * 12089777079628320618000921127670825209163210154433485764836890627159878209761 + BASE_T
    ensures BASE_Y * BASE_Y - BASE_X * BASE_X - (1 * 1 + CURVE_D * (BASE_T * BASE_T)) == FIELD *
      -1404995416558591703935402335071871497660573215803886088007472604973677187509378205875315662149191623813929323558907999434574481479439670300926143553417440
  {
  }

  /** BASE_T is the reduced product the signer computes for the base point's fourth coordinate. */
  lemma BaseProduct()
    ensures BASE_X * BASE_Y % FIELD == BASE_T
  {
    BaseIntegers();
    Remainder(FIELD, BASE_X * BASE_Y, 12089777079628320618000921127670825209163210154433485764836890627159878209761,
              BASE_T);
  }

  lemma BaseEquation()
    ensures Vanishes(FIELD, BASE_Y * BASE_Y - BASE_X * BASE_X - (1 * 1 + CURVE_D * (BASE_T * BASE_T)))
    ensures Vanishes(FIELD, BASE_X * BASE_Y - 1 * BASE_T)
  {
    hide Vanishes;
    BaseIntegers();
    Multiple(FIELD, BASE_Y * BASE_Y - BASE_X * BASE_X - (1 * 1 + CURVE_D * (BASE_T * BASE_T)),
      -1404995416558591703935402335071871497660573215803886088007472604973677187509378205875315662149191623813929323558907999434574481479439670300926143553417440);
    Multiple(FIELD, BASE_X * BASE_Y - 1 * BASE_T,
             12089777079628320618000921127670825209163210154433485764836890627159878209761);
  }

  lemma OneNonzero(p: Modulus)
    ensures !Vanishes(p, 1)
  {
  }

  lemma BaseValid()
    ensures Valid(ED25519.curve, BASE)
  {
    hide Vanishes;
    BaseEquation();
    OneNonzero(FIELD);
  }

  lemma RootInteger()
    ensures ROOT * ROOT + 1 == FIELD * 6690407189080634018507799843845558368979872843924222843531373839242004886245
  {
  }

  lemma RootEquation()
    ensures HasRootOfMinusOne(FIELD)
  {
    hide Vanishes;
    RootInteger();
    Multiple(FIELD, ROOT * ROOT + 1, 6690407189080634018507799843845558368979872843924222843531373839242004886245);
    var i: int := ROOT;
    assert Vanishes(FIELD, i * i + 1);
  }

  lemma Odd(p: Modulus, h: nat)
    requires p == 2 * h + 1
    ensures p % 2 == 1
  {
  }

  /** The signer's parameters have the shape its arithmetic needs. */
  lemma SuiteWellFormed()
    ensures WellFormed(ED25519)
  {
    hide Vanishes, Valid;
    RootEquation();
    BaseValid();
    Odd(FIELD, 28948022309329048855892746252171976963317496166410141009864396001978282409974);
  }

  /** The literal coefficient solves 121666 d = -121665. */
  lemma CurveDEquation()
    ensures Vanishes(FIELD, CURVE_D * 121666 + 121665)
  {
    hide Vanishes;
    assert CURVE_D * 121666 + 121665 == FIELD * 77955;
    Multiple(FIELD, CURVE_D * 121666 + 121665, 77955);
  }

  lemma SmallNonzero(p: Modulus, a: int)
    requires 0 < a < p
    ensures !Vanishes(p, a)
  {
  }

  lemma QuotientUnique(p: Modulus, d: int, a: int, z: int, v: int)
    requires 0 <= d < p && Vanishes(p, d * z - a) && Cong(p, z * v, 1)
    ensures d == a * v % p
  {
    hide Vanishes;
    QuotientGap(p, d, a, z, v);
    var r := a * v;
    CongReducedEqual(p, d, r);
    assert d % p == d by {
      Remainder(p, d, 0, d);
    }
  }

  lemma QuotientGap(p: Modulus, d: int, a: int, z: int, v: int)
    requires Vanishes(p, d * z - a) && Vanishes(p, z * v - 1)
    ensures Vanishes(p, d - a * v)
  {
    hide *;
    Combine2(p, v, d * z - a, -d, z * v - 1);
    assert v * (d * z - a) == d * (z * v) - a * v;
    assert -d * (z * v - 1) == -(d * (z * v)) + d;
  }

  /** It is the value of the signer's own expression for it, as soon as inversion works. */
  lemma CurveDIsQuotient()
    requires IsPrime(FIELD)
    ensures CURVE_D == -121665 * Inverse(FIELD, 121666) % FIELD
  {
    hide Vanishes, Inverse, IsPrime;
    PrimeIsField(FIELD);
    SmallNonzero(FIELD, 121666);
    CurveDEquation();
    QuotientUnique(FIELD, CURVE_D, -121665, 121666, Inverse(FIELD, 121666));
  }

  /** The signer's own curve: every signature it produces verifies, given the four standard facts about it. */
  lemma SignatureVerifiesOnEd25519(sha512: Bytes -> Digest64, seed: Bytes, content: Bytes)
    requires CurveFacts(ED25519)
    ensures FitsEncoding(ED25519.curve) && 0 < ED25519.order <= TOP_BIT
    ensures Verifies(ED25519, sha512, PublicKey(ED25519, sha512, seed), content,
                     SignSeed(ED25519, sha512, seed, content))
  {
    hide Vanishes, Valid, CurveFacts, Verifies, SignSeed, PublicKey;
    SuiteWellFormed();
    SignatureVerifies(ED25519, sha512, seed, content);
  }

  /** Every signature on it has the R and S of section 5.1.6 of RFC 8032. */
  lemma SignatureIsOnEd25519(sha512: Bytes -> Digest64, seed: Bytes, content: Bytes, s: nat)
    requires CurveFacts(ED25519) && IsSecret(sha512, seed, s)
    ensures FitsEncoding(ED25519.curve) && 0 < ED25519.order <= TOP_BIT
    ensures var signature, public := SignSeed(ED25519, sha512, seed, content), PublicKey(ED25519, sha512, seed);
            var g, r := CurveGroup(ED25519.curve), LittleEndian(sha512(sha512(seed)[32..] + content));
            && public == Encode(ED25519.curve, g.Times(s, BASE))
            && |signature| == 64 && signature[..32] == Encode(ED25519.curve, g.Times(r, BASE))
            && LittleEndian(signature[32..])
               == (r + LittleEndian(sha512(signature[..32] + public + content)) * s) % ORDER
  {
    hide Vanishes, Valid, CurveFacts, IsSecret, SignSeed, PublicKey, LittleEndian, Encode;
    SuiteWellFormed();
    PublicKeyIs(ED25519, sha512, seed, s);
    SignatureIs(ED25519, sha512, seed, content, s);
  }
}
