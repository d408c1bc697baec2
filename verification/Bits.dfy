/** The binary digits of natural numbers. */
module Bits {
  import opened ModArith

  function Pow2(k: nat): (r: nat)
    ensures r > 0
  {
    if k == 0 then 1 else 2 * Pow2(k - 1)
  }

  /** Bit j of n. */
  predicate Bit(n: nat, j: nat) {
    if j == 0 then n % 2 == 1 else Bit(n / 2, j - 1)
  }

  lemma {:induction false} NoHighBits(n: nat, j: nat)
    ensures n == 0 ==> !Bit(n, j)
  {
    if j > 0 {
      NoHighBits(n / 2, j - 1);
    }
  }

  lemma {:induction false} BitOfLow(n: nat, m: nat, j: nat)
    ensures Bit(n % Pow2(m), j) <==> j < m && Bit(n, j)
  {
    var k := Pow2(m);
    if m == 0 {
      NoHighBits(n % k, j);
    } else {
      HalveRemainder(n, Pow2(m - 1));
      if j > 0 {
        BitOfLow(n / 2, m - 1, j - 1);
      }
    }
  }

  lemma HalveRemainder(n: nat, h: nat)
    requires h > 0
    ensures n % (2 * h) / 2 == n / 2 % h && n % (2 * h) % 2 == n % 2
  {
    var q, r := n / 2 / h, n / 2 % h;
    assert n == 2 * (h * q + r) + n % 2;
    assert 2 * (h * q) == (2 * h) * q;
    Remainder(2 * h, n, q, 2 * r + n % 2);
  }

  lemma {:induction false} BitOfTop(n: nat, m: nat, j: nat)
    requires n < Pow2(m)
    ensures Bit(n + Pow2(m), j) <==> j == m || (j < m && Bit(n, j))
  {
    if m == 0 {
      if j > 0 {
        NoHighBits(0, j - 1);
      }
    } else {
      assert (n + Pow2(m)) / 2 == n / 2 + Pow2(m - 1);
      assert (n + Pow2(m)) % 2 == n % 2;
      if j > 0 {
        BitOfTop(n / 2, m - 1, j - 1);
      }
    }
  }

  lemma BitOfEighths(n: nat, j: nat)
    ensures Bit(n / 8 * 8, j) <==> j >= 3 && Bit(n, j)
  {
    var k := n / 8;
    assert k == n / 2 / 2 / 2;
    if j >= 3 {
      assert Bit(n, j) == Bit(n / 2, j - 1) == Bit(n / 2 / 2, j - 2) == Bit(k, j - 3);
      assert Bit(k * 8, j) == Bit(k * 8 / 2, j - 1) == Bit(k * 4 / 2, j - 2) == Bit(k * 2 / 2, j - 3);
    } else if j == 2 {
      assert Bit(k * 8, 2) == Bit(k * 4, 1) == Bit(k * 2, 0);
    } else if j == 1 {
      assert Bit(k * 8, 1) == Bit(k * 4, 0);
    }
  }

  /** Bit j is what is left of n / 2^j after halving once more. */
  lemma {:induction false} BitMeans(n: nat, j: nat)
    ensures Bit(n, j) <==> n / Pow2(j) % 2 == 1
  {
    if j > 0 {
      BitMeans(n / 2, j - 1);
      DivideTwice(n, Pow2(j - 1));
    }
  }

  lemma {:induction false} BitShift(n: nat, k: nat, q: nat, j: nat)
    requires q == n / Pow2(k)
    ensures Bit(n, k + j) <==> Bit(q, j)
  {
    if k > 0 {
      DivideTwice(n, Pow2(k - 1));
      BitShift(n / 2, k - 1, q, j);
    }
  }

  lemma DivideTwice(n: nat, k: nat)
    requires k > 0
    ensures n / (2 * k) == n / 2 / k
  {
    var q, r := n / 2 / k, n / 2 % k;
    assert n == 2 * (k * q + r) + n % 2;
    assert 2 * (k * q) == (2 * k) * q;
    QuotientIs(2 * k, n, q, 2 * r + n % 2);
  }

  lemma QuotientIs(k: nat, n: nat, q: nat, r: nat)
    requires n == k * q + r && r < k
    ensures n / k == q
  {
    if k > 1 {
      Remainder(k, n, q, r);
      assert n == k * (n / k) + n % k;
      assert k * (n / k - q) == 0;
    }
  }

  /** A number is determined by its bits. */
  lemma {:induction false} BitsDetermine(m: nat, n: nat)
    requires forall j: nat :: Bit(m, j) <==> Bit(n, j)
    ensures m == n
    decreases m + n
  {
    assert Bit(m, 0) == Bit(n, 0);
    if m + n > 0 {
      forall j: nat
        ensures Bit(m / 2, j) <==> Bit(n / 2, j)
      {
        assert Bit(m, j + 1) == Bit(n, j + 1);
      }
      BitsDetermine(m / 2, n / 2);
    }
  }
}
