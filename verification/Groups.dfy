/** n-fold sums and double-and-add over any commutative addition, up to a notion of sameness. */
module Groups {
  datatype Group<!P(!new)> = Group(valid: P -> bool, same: (P, P) -> bool, zero: P, add: (P, P) -> P, double: P -> P) {
    /** Same element, both sides valid: the working equality. */
    predicate Equal(q: P, r: P) {
      valid(q) && valid(r) && same(q, r)
    }

    ghost predicate Equivalence() {
      && (forall q :: valid(q) ==> Equal(q, q))
      && (forall q, r :: Equal(q, r) ==> Equal(r, q))
      && (forall q, r, s :: Links(q, r, s))
    }

    predicate Links(q: P, r: P, s: P) {
      Equal(q, r) && Equal(r, s) ==> Equal(q, s)
    }

    ghost predicate Closed() {
      && valid(zero)
      && (forall q, r {:trigger add(q, r)} :: valid(q) && valid(r) ==> valid(add(q, r)))
      && (forall q {:trigger double(q)} :: valid(q) ==> Equal(double(q), add(q, q)))
    }

    ghost predicate Congruent() {
      forall q, r, q', r' {:trigger add(q, r), add(q', r')} ::
        Equal(q, q') && Equal(r, r') ==> Equal(add(q, r), add(q', r'))
    }

    ghost predicate Commutative() {
      && (forall q, r {:trigger add(q, r)} :: valid(q) && valid(r) ==> Equal(add(q, r), add(r, q)))
      && (forall q {:trigger add(q, zero)} :: valid(q) ==> Equal(add(q, zero), q))
    }

    ghost predicate Associative() {
      forall q, r, s {:trigger add(add(q, r), s)} :: valid(q) && valid(r) && valid(s) ==>
        Equal(add(add(q, r), s), add(q, add(r, s)))
    }

    ghost predicate Laws() {
      Equivalence() && Closed() && Congruent() && Commutative() && Associative()
    }

    /** q added to itself n times. */
    function Times(n: nat, q: P): P {
      if n == 0 then zero else add(Times(n - 1, q), q)
    }

    /** The double-and-add loop from an accumulator: low bit first, doubling the point at every bit. */
    function DoubleAndAdd(n: nat, acc: P, q: P): P {
      if n == 0 then acc else DoubleAndAdd(n / 2, if n % 2 == 1 then add(acc, q) else acc, double(q))
    }

    lemma Chain(q: P, r: P, s: P)
      requires Laws() && Equal(q, r) && Equal(r, s)
      ensures Equal(q, s)
    {
      assert Links(q, r, s);
    }

    lemma {:induction false} TimesValid(n: nat, q: P)
      requires Laws() && valid(q)
      ensures valid(Times(n, q))
    {
      if n > 0 {
        TimesValid(n - 1, q);
      }
    }

    lemma {:induction false} TimesRespectsEqual(n: nat, q: P, r: P)
      requires Laws() && Equal(q, r)
      ensures Equal(Times(n, q), Times(n, r))
    {
      if n > 0 {
        TimesRespectsEqual(n - 1, q, r);
      }
    }

    lemma SumStep(sum: P, a: P, b: P, q: P)
      requires Laws() && valid(a) && valid(b) && valid(q)
      requires Equal(sum, add(a, b))
      ensures Equal(add(sum, q), add(a, add(b, q)))
    {
      assert Equal(q, q);
      Chain(add(sum, q), add(add(a, b), q), add(a, add(b, q)));
    }

    /** (m + n)q = mq + nq */
    lemma {:induction false} TimesSum(m: nat, n: nat, q: P)
      requires Laws() && valid(q)
      ensures Equal(Times(m + n, q), add(Times(m, q), Times(n, q)))
    {
      var a := Times(m, q);
      TimesValid(m, q);
      if n > 0 {
        TimesValid(n - 1, q);
        TimesSum(m, n - 1, q);
        SumStep(Times(m + n - 1, q), a, Times(n - 1, q), q);
      }
    }

    /** (kn)q = k(nq) */
    lemma {:induction false} TimesProduct(k: nat, n: nat, q: P)
      requires Laws() && valid(q)
      ensures Equal(Times(k * n, q), Times(k, Times(n, q)))
    {
      var r := Times(n, q);
      TimesValid(n, q);
      if k == 0 {
        assert k * n == 0;
      } else {
        assert k * n == (k - 1) * n + n;
        TimesProduct(k - 1, n, q);
        TimesSum((k - 1) * n, n, q);
        assert Equal(r, r);
        Chain(Times(k * n, q), add(Times((k - 1) * n, q), r), Times(k, r));
      }
    }

    lemma {:induction false} TimesOfZero(n: nat)
      requires Laws()
      ensures Equal(Times(n, zero), zero)
    {
      if n > 0 {
        TimesOfZero(n - 1);
        Chain(Times(n, zero), add(zero, zero), zero);
      }
    }

    lemma AddOnLeft(a: P, b: P, c: P)
      requires Laws() && valid(a) && Equal(b, c)
      ensures Equal(add(a, b), add(a, c))
    {
      assert Equal(a, a);
    }

    /** (m + kn)q = mq + k(nq) */
    lemma TimesAffine(m: nat, k: nat, n: nat, q: P)
      requires Laws() && valid(q)
      ensures Equal(Times(m + k * n, q), add(Times(m, q), Times(k, Times(n, q))))
    {
      hide *;
      var kn: nat := k * n;
      TimesValid(m, q);
      TimesSum(m, kn, q);
      TimesProduct(k, n, q);
      AddOnLeft(Times(m, q), Times(kn, q), Times(k, Times(n, q)));
      Chain(Times(m + kn, q), add(Times(m, q), Times(kn, q)), add(Times(m, q), Times(k, Times(n, q))));
    }

    lemma MultipleOfOrder(k: nat, order: nat, q: P)
      requires Laws() && valid(q)
      requires Equal(Times(order, q), zero)
      ensures Equal(Times(k * order, q), zero)
    {
      TimesProduct(k, order, q);
      TimesRespectsEqual(k, Times(order, q), zero);
      TimesOfZero(k);
      Chain(Times(k * order, q), Times(k, Times(order, q)), Times(k, zero));
      Chain(Times(k * order, q), Times(k, zero), zero);
    }

    lemma DropZero(sum: P, a: P, b: P)
      requires Laws() && valid(a) && Equal(b, zero) && Equal(sum, add(a, b))
      ensures Equal(a, sum)
    {
      assert Equal(a, a);
      Chain(sum, add(a, b), add(a, zero));
      Chain(sum, add(a, zero), a);
    }

    /** Multiples only depend on the multiplier modulo the order of the element. */
    lemma TimesModuloOrder(n: nat, order: nat, q: P)
      requires Laws() && valid(q) && order > 0
      requires Equal(Times(order, q), zero)
      ensures Equal(Times(n % order, q), Times(n, q))
    {
      var k, m := n / order, n % order;
      assert n == m + k * order;
      TimesValid(m, q);
      MultipleOfOrder(k, order, q);
      TimesSum(m, k * order, q);
      DropZero(Times(n, q), Times(m, q), Times(k * order, q));
    }

    lemma TimesAffineModulo(sum: nat, m: nat, k: nat, n: nat, order: nat, q: P)
      requires Laws() && valid(q) && order > 0 && sum == m + k * n
      requires Equal(Times(order, q), zero)
      ensures Equal(Times(sum % order, q), add(Times(m, q), Times(k, Times(n, q))))
    {
      hide *;
      var r := sum % order;
      assert Equal(Times(r, q), Times(sum, q)) by {
        TimesModuloOrder(sum, order, q);
      }
      TimesAffine(m, k, n, q);
      Chain(Times(r, q), Times(sum, q), add(Times(m, q), Times(k, Times(n, q))));
    }

    lemma TwiceIsSelfSum(q: P)
      requires Laws() && valid(q)
      ensures Equal(Times(2, q), add(q, q))
    {
      assert Times(2, q) == add(Times(1, q), q) && Times(1, q) == add(zero, q);
      assert Equal(q, q);
      Chain(add(zero, q), add(q, zero), q);
    }

    /** k copies of 2q are 2k copies of q. */
    lemma {:induction false} TimesDouble(k: nat, q: P)
      requires Laws() && valid(q)
      ensures Equal(Times(k, double(q)), Times(2 * k, q))
    {
      TwiceIsSelfSum(q);
      Chain(double(q), add(q, q), Times(2, q));
      TimesRespectsEqual(k, double(q), Times(2, q));
      TimesProduct(k, 2, q);
      assert k * 2 == 2 * k;
      Chain(Times(k, double(q)), Times(k, Times(2, q)), Times(k * 2, q));
    }

    lemma SwapIntoAccumulator(acc: P, q: P, rest: P)
      requires Laws() && valid(acc) && valid(q) && valid(rest)
      ensures Equal(add(add(acc, q), rest), add(acc, add(rest, q)))
    {
      assert Equal(acc, acc);
      Chain(add(add(acc, q), rest), add(acc, add(q, rest)), add(acc, add(rest, q)));
    }

    lemma DoubledRest(result: P, acc: P, k: nat, q: P)
      requires Laws() && valid(acc) && valid(q)
      requires Equal(result, add(acc, Times(k, double(q))))
      ensures Equal(result, add(acc, Times(2 * k, q)))
    {
      TimesDouble(k, q);
      assert Equal(acc, acc);
      Chain(result, add(acc, Times(k, double(q))), add(acc, Times(2 * k, q)));
    }

    lemma OddRest(result: P, acc: P, k: nat, q: P)
      requires Laws() && valid(acc) && valid(q)
      requires Equal(result, add(add(acc, q), Times(2 * k, q)))
      ensures Equal(result, add(acc, Times(2 * k + 1, q)))
    {
      TimesValid(2 * k, q);
      SwapIntoAccumulator(acc, q, Times(2 * k, q));
      Chain(result, add(add(acc, q), Times(2 * k, q)), add(acc, Times(2 * k + 1, q)));
    }

    /** Double-and-add adds exactly n copies: at every bit, accumulator + remaining * point is unchanged. */
    lemma {:induction false} DoubleAndAddIsTimes(n: nat, acc: P, q: P)
      requires Laws() && valid(acc) && valid(q)
      ensures Equal(DoubleAndAdd(n, acc, q), add(acc, Times(n, q)))
      decreases n
    {
      if n == 0 {
        assert Equal(add(acc, zero), acc);
      } else if n % 2 == 0 {
        DoubleAndAddIsTimes(n / 2, acc, double(q));
        DoubledRest(DoubleAndAdd(n, acc, q), acc, n / 2, q);
      } else {
        DoubleAndAddIsTimes(n / 2, add(acc, q), double(q));
        DoubledRest(DoubleAndAdd(n, acc, q), add(acc, q), n / 2, q);
        OddRest(DoubleAndAdd(n, acc, q), acc, n / 2, q);
      }
    }
  }
}
