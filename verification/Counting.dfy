/**
 What happens in each step, added up over many steps: totals that are paid for,
 and long stretches in which nothing happens.
 */
module Counting {
  import opened Sets
  import opened Sums

  ghost function SumUntil(count: nat -> nat, k: nat): nat {
    if k == 0 then 0 else SumUntil(count, k - 1) + count(k - 1)
  }

  /** In this iteration the total grows by the price of everything counted. */
  ghost predicate Raises(count: nat -> nat, total: nat -> real, price: real, i: nat) {
    total(i) + Times(count(i), price) <= total(i + 1)
  }

  lemma {:induction false} CountedIsPaid(count: nat -> nat, total: nat -> real, price: real, k: nat)
    requires total(0) >= 0.0 && forall i :: Raises(count, total, price, i)
    ensures Times(SumUntil(count, k), price) <= total(k)
  {
    if k > 0 {
      CountedIsPaid(count, total, price, k - 1);
      assert Raises(count, total, price, k - 1);
      TimesAdds(SumUntil(count, k - 1), count(k - 1), price);
    }
  }

  lemma {:induction false} TimesAdds(m: nat, n: nat, x: real)
    ensures Times(m + n, x) == Times(m, x) + Times(n, x)
  {
    if n > 0 {
      TimesAdds(m, n - 1, x);
    }
  }

  /** n * k by repeated addition, which keeps the proofs below linear. */
  function Multiple(k: nat, n: nat): nat {
    if k == 0 then 0 else Multiple(k - 1, n) + n
  }

  lemma {:induction false} MultipleAdds(j: nat, k: nat, n: nat)
    ensures Multiple(j + k, n) == Multiple(j, n) + Multiple(k, n)
  {
    if k > 0 {
      MultipleAdds(j, k - 1, n);
    }
  }

  lemma MultipleGrows(j: nat, k: nat, n: nat)
    requires j <= k
    ensures Multiple(j, n) <= Multiple(k, n)
  {
    MultipleAdds(j, k - j, n);
  }

  lemma {:induction false} MultipleNext(k: nat, n: nat)
    ensures Multiple(k, n + 1) == Multiple(k, n) + k
  {
    if k > 0 {
      MultipleNext(k - 1, n);
    }
  }

  lemma {:induction false} MultipleIsProduct(k: nat, n: nat)
    ensures Multiple(k, n) == k * n
  {
    if k > 0 {
      MultipleIsProduct(k - 1, n);
    }
  }

  /** A change uses up some of the stock, or is paid for by `n` for each bid. */
  ghost predicate Pays(changes: nat -> nat, stock: nat -> nat, bids: nat -> nat, n: nat, i: nat) {
    stock(i + 1) + changes(i) <= stock(i) + Multiple(bids(i), n)
  }

  lemma {:induction false} ChangesArePaid(changes: nat -> nat, stock: nat -> nat, bids: nat -> nat, n: nat, k: nat)
    requires stock(0) == 0 && forall i :: Pays(changes, stock, bids, n, i)
    ensures SumUntil(changes, k) + stock(k) <= Multiple(SumUntil(bids, k), n)
  {
    if k > 0 {
      ChangesArePaid(changes, stock, bids, n, k - 1);
      assert Pays(changes, stock, bids, n, k - 1);
      MultipleAdds(SumUntil(bids, k - 1), bids(k - 1), n);
    }
  }

  lemma {:induction false} SumUntilGrows(count: nat -> nat, j: nat, k: nat)
    requires j <= k
    ensures SumUntil(count, j) <= SumUntil(count, k)
  {
    if j < k {
      SumUntilGrows(count, j, k - 1);
    }
  }

  lemma NothingCounted(count: nat -> nat, j: nat, k: nat, i: nat)
    requires j <= i < k && SumUntil(count, k) == SumUntil(count, j)
    ensures count(i) == 0
  {
    SumUntilGrows(count, j, i);
    SumUntilGrows(count, i + 1, k);
  }

  /** Where at most `most` is counted in `most + 1` stretches of `length`, one of them is empty. */
  lemma {:induction false} EmptyStretch(count: nat -> nat, from: nat, most: nat, length: nat) returns (j: nat)
    requires SumUntil(count, from + Multiple(most + 1, length)) <= SumUntil(count, from) + most
    ensures from <= j && j + length <= from + Multiple(most + 1, length)
    ensures SumUntil(count, j + length) == SumUntil(count, j)
    decreases most
  {
    SumUntilGrows(count, from, from + length);
    assert most == 0 ==> Multiple(most + 1, length) == length;
    if SumUntil(count, from + length) == SumUntil(count, from) {
      j := from;
    } else {
      j := EmptyStretch(count, from + length, most - 1, length);
    }
  }

  // ------------------------------------------------------ sizes of sets

  /** A union of sets of at most `n` elements. */
  lemma {:induction false} UnionSize<A, C>(keys: set<A>, union: set<C>, part: A -> set<C>, n: nat)
    requires forall a | a in keys :: |part(a)| <= n
    requires forall c | c in union :: exists a :: a in keys && c in part(a)
    ensures |union| <= Multiple(|keys|, n)
    decreases |keys|
  {
    if keys == {} {
      assert union == {};
    } else {
      var a := Pick(keys);
      var rest := union - part(a);
      forall c | c in rest ensures exists b :: b in keys - {a} && c in part(b) {
        var b :| b in keys && c in part(b);
      }
      UnionSize(keys - {a}, rest, part, n);
      SubsetCardinality(union, rest + part(a));
    }
  }

  lemma {:induction false} ImageSize<A, C>(s: set<A>, image: set<C>, f: A -> C)
    requires forall c | c in image :: exists a :: a in s && f(a) == c
    ensures |image| <= |s|
    decreases |s|
  {
    if s == {} {
      assert image == {};
    } else {
      var a := Pick(s);
      forall c | c in image - {f(a)} ensures exists b :: b in s - {a} && f(b) == c {
        var b :| b in s && f(b) == c;
      }
      ImageSize(s - {a}, image - {f(a)}, f);
      SubsetCardinality(image, image - {f(a)} + {f(a)});
    }
  }
}
