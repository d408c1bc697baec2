/** Congruence arithmetic over an arbitrary modulus, in the form the point lemmas need:
    a value "vanishes" when the modulus divides it, and vanishing values form an ideal. */
module ModArith {
  type Modulus = p: int | p > 1 witness 2

  predicate Vanishes(p: Modulus, a: int) {
    a % p == 0
  }

  predicate Cong(p: Modulus, a: int, b: int) {
    Vanishes(p, a - b)
  }

  /** No multiple of the modulus other than zero lies strictly between its negation and itself. */
  lemma NonzeroMultiple(p: Modulus, k: int)
    requires k != 0
    ensures p * k >= p || p * k <= 0 - p
  {
    if k >= 1 {
      assert p * (k - 1) >= 0;
      assert p * k == p * (k - 1) + p;
    } else {
      assert p * (-1 - k) >= 0;
      assert p * k == 0 - p - p * (-1 - k);
    }
  }

  lemma MultipleVanishes(p: Modulus, k: int)
    ensures Vanishes(p, p * k)
  {
    var q, r := p * k / p, p * k % p;
    assert p * k == p * q + r;
    assert p * (k - q) == r;
    if k - q != 0 {
      NonzeroMultiple(p, k - q);
    }
  }

  lemma Quotient(p: Modulus, a: int) returns (k: int)
    requires Vanishes(p, a)
    ensures a == p * k
  {
    k := a / p;
  }

  lemma Scale(p: Modulus, k: int, a: int)
    requires Vanishes(p, a)
    ensures Vanishes(p, k * a)
  {
    var q := Quotient(p, a);
    assert k * a == p * (k * q);
    MultipleVanishes(p, k * q);
  }

  lemma Sum(p: Modulus, a: int, b: int)
    requires Vanishes(p, a) && Vanishes(p, b)
    ensures Vanishes(p, a + b)
  {
    var q := Quotient(p, a);
    var r := Quotient(p, b);
    assert a + b == p * (q + r);
    MultipleVanishes(p, q + r);
  }

  lemma Combine2(p: Modulus, a: int, r: int, b: int, s: int)
    requires Vanishes(p, r) && Vanishes(p, s)
    ensures Vanishes(p, a * r + b * s)
  {
    Scale(p, a, r);
    Scale(p, b, s);
    Sum(p, a * r, b * s);
  }

  lemma Combine4(p: Modulus, a: int, r: int, b: int, s: int, c: int, t: int, d: int, u: int)
    requires Vanishes(p, r) && Vanishes(p, s) && Vanishes(p, t) && Vanishes(p, u)
    ensures Vanishes(p, a * r + b * s + c * t + d * u)
  {
    Combine2(p, a, r, b, s);
    Combine2(p, c, t, d, u);
    Sum(p, a * r + b * s, c * t + d * u);
  }

  lemma Reduced(p: Modulus, a: int)
    ensures Cong(p, a % p, a)
  {
    assert a % p - a == p * (-(a / p));
    MultipleVanishes(p, -(a / p));
  }

  lemma CongOf(p: Modulus, a: int, b: int)
    requires a == b
    ensures Cong(p, a, b)
  {
    assert 0 % p == 0;
  }

  lemma CongSym(p: Modulus, a: int, b: int)
    requires Cong(p, a, b)
    ensures Cong(p, b, a)
  {
    Scale(p, -1, a - b);
  }

  lemma CongTrans(p: Modulus, a: int, b: int, c: int)
    requires Cong(p, a, b) && Cong(p, b, c)
    ensures Cong(p, a, c)
  {
    hide Vanishes;
    Sum(p, a - b, b - c);
  }

  lemma CongMul(p: Modulus, a: int, b: int, a': int, b': int)
    requires Cong(p, a, a') && Cong(p, b, b')
    ensures Cong(p, a * b, a' * b')
  {
    hide Vanishes;
    Combine2(p, b, a - a', a', b - b');
    assert b * (a - a') + a' * (b - b') == a * b - a' * b';
  }

  /** Congruent values have one reduced representative. */
  lemma CongReducedEqual(p: Modulus, a: int, b: int)
    requires Cong(p, a, b)
    ensures a % p == b % p
  {
    var k := Quotient(p, a - b);
    var m := k - a / p + b / p;
    assert p * m == p * k - p * (a / p) + p * (b / p);
    assert a == p * (a / p) + a % p && b == p * (b / p) + b % p;
    assert p * m == b % p - a % p || p * m == a % p - b % p;
    if m != 0 {
      NonzeroMultiple(p, m);
    }
  }

  lemma Remainder(p: Modulus, a: int, k: int, r: int)
    requires a == p * k + r && 0 <= r < p
    ensures a % p == r
  {
    assert a == p * (a / p) + a % p;
    assert p * (k - a / p) == a % p - r;
    if k != a / p {
      NonzeroMultiple(p, k - a / p);
    }
  }
}
