/** Inversion by exponentiation, and why it works modulo a prime: Fermat's little theorem. */
module PrimeField {
  import opened ModArith

  /** pow(base, exponent, p) */
  function PowMod(base: int, exponent: nat, p: Modulus): (r: int)
    ensures 0 <= r < p
  {
    if exponent == 0 then 1 % p else base * PowMod(base, exponent - 1, p) % p
  }

  function Inverse(p: Modulus, z: int): int {
    PowMod(z, p - 2, p)
  }

  /** Raising to p - 2 inverts whatever does not vanish. */
  ghost predicate IsField(p: Modulus) {
    forall z {:trigger Inverse(p, z)} :: !Vanishes(p, z) ==> Cong(p, z * Inverse(p, z), 1)
  }

  /** No divisor but one and itself. */
  ghost predicate IsPrime(p: Modulus) {
    forall d :: 1 < d < p ==> p % d != 0
  }

  // ----- Every residue has an inverse -----

  lemma {:induction false} Bezout(p: Modulus, a: nat) returns (u: int)
    requires IsPrime(p) && 0 < a < p
    ensures Cong(p, a * u, 1)
    decreases a
  {
    if a == 1 {
      u := 1;
      CongOf(p, 1, 1);
    } else {
      var q, r := p / a, p % a;
      assert p == a * q + r;
      var v := Bezout(p, r);
      u := -q * v;
      InverseStep(p, a, q, r, v);
    }
  }

  lemma InverseStep(p: Modulus, a: int, q: int, r: int, v: int)
    requires p == a * q + r && Vanishes(p, r * v - 1)
    ensures Vanishes(p, a * (-q * v) - 1)
  {
    hide *;
    MultipleVanishes(p, -v);
    Sum(p, r * v - 1, p * -v);
    assert p * -v == -((a * q + r) * v);
    assert (a * q + r) * v == a * q * v + r * v;
    assert a * (-q * v) == -(a * q * v);
  }

  /** A product vanishes only where a factor does. */
  lemma Euclid(p: Modulus, a: int, b: int)
    requires IsPrime(p) && Vanishes(p, a * b) && !Vanishes(p, a)
    ensures Vanishes(p, b)
  {
    hide IsPrime;
    var r := a % p;
    var u := Bezout(p, r);
    Reduced(p, a);
    CancelFactor(p, a, r, u, b);
  }

  lemma CancelFactor(p: Modulus, a: int, r: int, u: int, b: int)
    requires Vanishes(p, a * b) && Vanishes(p, r * u - 1) && Vanishes(p, r - a)
    ensures Vanishes(p, b)
  {
    hide *;
    Combine4(p, u, a * b, -b, r * u - 1, u * b, r - a, 0, r - a);
    assert u * (a * b) + -b * (r * u - 1) + (u * b) * (r - a) + 0 * (r - a) == b by {
      assert u * (a * b) == (u * b) * a;
      assert -b * (r * u - 1) == b - (u * b) * r by {
        assert b * (r * u) == (u * b) * r;
      }
    }
  }

  // ----- Products over sets -----

  ghost function Pick<T>(s: set<T>): (x: T)
    requires s != {}
    ensures x in s
  {
    var x :| x in s;
    x
  }

  /** The product of all members, in some order. */
  ghost function ProductOf(s: set<int>): int {
    if s == {} then 1 else Pick(s) * ProductOf(s - {Pick(s)})
  }

  /** The order does not matter. */
  lemma {:induction false} ProductOut(s: set<int>, y: int)
    requires y in s
    ensures ProductOf(s) == y * ProductOf(s - {y})
    decreases |s|
  {
    var x := Pick(s);
    if x != y {
      ProductOut(s - {x}, y);
      ProductOut(s - {y}, x);
      assert s - {x} - {y} == s - {y} - {x};
      Exchanged(x, y, ProductOf(s - {x} - {y}));
    }
  }

  lemma Exchanged(x: int, y: int, m: int)
    ensures x * (y * m) == y * (x * m)
  {
  }

  lemma {:induction false} ProductNonzero(p: Modulus, s: set<int>)
    requires IsPrime(p) && forall x :: x in s ==> 0 < x < p
    ensures !Vanishes(p, ProductOf(s))
    decreases |s|
  {
    hide IsPrime;
    if s == {} {
      Small(p, 1);
    } else {
      var x := Pick(s);
      Small(p, x);
      ProductNonzero(p, s - {x});
      hide Vanishes;
      if Vanishes(p, ProductOf(s)) {
        Euclid(p, x, ProductOf(s - {x}));
      }
    }
  }

  // ----- Multiplication permutes the residues -----

  ghost function Multiples(p: Modulus, a: int, s: set<int>): set<int> {
    set x | x in s :: a * x % p
  }

  function Power(a: int, n: nat): int {
    if n == 0 then 1 else a * Power(a, n - 1)
  }

  lemma TimesApart(p: Modulus, a: int, x: int, y: int)
    requires IsPrime(p) && !Vanishes(p, a) && 0 < x < p && 0 < y < p && a * x % p == a * y % p
    ensures x == y
  {
    hide *;
    SameReduced(p, a, x, y);
    Euclid(p, a, x - y);
    assert Cong(p, x, y) by {
      CongVanishes(p, x, y);
    }
    CongReducedEqual(p, x, y);
    Small(p, x);
    Small(p, y);
  }

  lemma CongVanishes(p: Modulus, x: int, y: int)
    ensures Cong(p, x, y) <==> Vanishes(p, x - y)
  {
  }

  lemma Small(p: Modulus, x: int)
    requires 0 < x < p
    ensures x % p == x && !Vanishes(p, x)
  {
    Remainder(p, x, 0, x);
  }

  lemma SameReduced(p: Modulus, a: int, x: int, y: int)
    requires a * x % p == a * y % p
    ensures Vanishes(p, a * (x - y))
  {
    assert a * x == p * (a * x / p) + a * x % p && a * y == p * (a * y / p) + a * y % p;
    assert a * (x - y) == a * x - a * y == p * (a * x / p - a * y / p);
    MultipleVanishes(p, a * x / p - a * y / p);
  }

  /** Multiplying every member multiplies the product by a power. */
  lemma {:induction false} ProductTimes(p: Modulus, a: int, s: set<int>)
    requires IsPrime(p) && !Vanishes(p, a) && forall x :: x in s ==> 0 < x < p
    ensures |Multiples(p, a, s)| == |s| && Cong(p, ProductOf(Multiples(p, a, s)), Power(a, |s|) * ProductOf(s))
    decreases |s|
  {
    hide IsPrime, Vanishes;
    if s == {} {
      CongOf(p, 1, 1);
    } else {
      var x := Pick(s);
      var rest := s - {x};
      ProductTimes(p, a, rest);
      var y := a * x % p;
      assert y !in Multiples(p, a, rest) by {
        forall z | z in rest
          ensures a * z % p != y
        {
          if a * z % p == y {
            TimesApart(p, a, x, z);
          }
        }
      }
      assert Multiples(p, a, s) == Multiples(p, a, rest) + {y};
      assert Multiples(p, a, s) - {y} == Multiples(p, a, rest);
      ProductOut(Multiples(p, a, s), y);
      Reduced(p, a * x);
      CongMul(p, y, ProductOf(Multiples(p, a, rest)), a * x, Power(a, |rest|) * ProductOf(rest));
      Regroup(a, x, Power(a, |rest|), ProductOf(rest));
    }
  }

  lemma Regroup(a: int, x: int, k: int, m: int)
    ensures a * x * (k * m) == a * k * (x * m)
  {
  }

  /** The numbers from 1 to n. */
  ghost function UpTo(n: nat): (r: set<int>)
    ensures forall x :: x in r <==> 0 < x <= n
    ensures |r| == n
  {
    if n == 0 then {} else UpTo(n - 1) + {n}
  }

  lemma SubsetOfSameSize(s: set<int>, t: set<int>)
    requires s <= t && |s| == |t|
    ensures s == t
  {
    assert t == s + (t - s);
    assert |t| == |s| + |t - s|;
  }

  lemma Permuted(p: Modulus, a: int)
    requires IsPrime(p) && !Vanishes(p, a)
    ensures Multiples(p, a, UpTo(p - 1)) == UpTo(p - 1)
  {
    hide IsPrime, Vanishes;
    var r := UpTo(p - 1);
    ProductTimes(p, a, r);
    forall x | x in r
      ensures a * x % p in r
    {
      Stays(p, a, x);
    }
    SubsetOfSameSize(Multiples(p, a, r), r);
  }

  lemma Stays(p: Modulus, a: int, x: int)
    requires IsPrime(p) && !Vanishes(p, a) && 0 < x < p
    ensures 0 < a * x % p < p
  {
    hide IsPrime;
    Small(p, x);
    if a * x % p == 0 {
      assert Vanishes(p, a * x);
      Euclid(p, a, x);
    }
  }

  /** Fermat's little theorem. */
  lemma Fermat(p: Modulus, a: int)
    requires IsPrime(p) && !Vanishes(p, a)
    ensures Cong(p, Power(a, p - 1), 1)
  {
    hide IsPrime, Vanishes, ProductOf, Power, Multiples;
    var r := UpTo(p - 1);
    var m, k := ProductOf(r), Power(a, p - 1);
    Permuted(p, a);
    ProductTimes(p, a, r);
    ProductNonzero(p, r);
    assert Vanishes(p, m - k * m);
    Scale(p, -1, m - k * m);
    assert -1 * (m - k * m) == m * (k - 1);
    Euclid(p, m, k - 1);
  }

  lemma {:induction false} PowModIs(base: int, exponent: nat, p: Modulus)
    ensures Cong(p, PowMod(base, exponent, p), Power(base, exponent))
  {
    hide Vanishes;
    if exponent == 0 {
      Reduced(p, 1);
    } else {
      PowModIs(base, exponent - 1, p);
      CongOf(p, base, base);
      CongMul(p, base, PowMod(base, exponent - 1, p), base, Power(base, exponent - 1));
      Reduced(p, base * PowMod(base, exponent - 1, p));
      CongTrans(p, PowMod(base, exponent, p), base * PowMod(base, exponent - 1, p), Power(base, exponent));
    }
  }

  /** Modulo a prime, raising to p - 2 inverts whatever does not vanish. */
  lemma PrimeIsField(p: Modulus)
    requires IsPrime(p)
    ensures IsField(p)
  {
    hide IsPrime, Vanishes, PowMod, Power;
    forall z | !Vanishes(p, z)
      ensures Cong(p, z * Inverse(p, z), 1)
    {
      PowModIs(z, p - 2, p);
      CongOf(p, z, z);
      CongMul(p, z, Inverse(p, z), z, Power(z, p - 2));
      assert Power(z, p - 1) == z * Power(z, p - 2) by {
        PowerMore(z, p - 1);
      }
      Fermat(p, z);
      CongTrans(p, z * Inverse(p, z), Power(z, p - 1), 1);
    }
  }

  lemma PowerMore(a: int, n: nat)
    requires n > 0
    ensures Power(a, n) == a * Power(a, n - 1)
  {
  }
}
