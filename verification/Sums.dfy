/** Sums of the values of a finite map, and how they react to reindexing. */
module Sums {
  import opened Sets

  ghost function Sum<K>(m: map<K, real>): real {
    if m == map[] then 0.0
    else
      var k :| k in m;
      m[k] + Sum(m - {k})
  }

  /** The sum does not depend on the order in which keys are removed. */
  lemma {:induction false} SumRemove<K>(m: map<K, real>, k: K)
    requires k in m
    ensures Sum(m) == m[k] + Sum(m - {k})
    decreases |m|
  {
    assert m != map[];
    var j :| j in m && Sum(m) == m[j] + Sum(m - {j});
    if j != k {
      SumRemove(m - {j}, k);
      SumRemove(m - {k}, j);
      assert m - {j} - {k} == m - {k} - {j};
    }
  }

  lemma SumUpdate<K>(m: map<K, real>, k: K, x: real)
    requires k in m
    ensures Sum(m[k := x]) == Sum(m) - m[k] + x
  {
    SumRemove(m, k);
    SumRemove(m[k := x], k);
    assert m[k := x] - {k} == m - {k};
  }

  /** n * x by repeated addition, which keeps the proofs below linear. */
  ghost function Times(n: nat, x: real): real {
    if n == 0 then 0.0 else Times(n - 1, x) + x
  }

  lemma {:induction false} TimesIsProduct(n: nat, x: real)
    ensures Times(n, x) == n as real * x
  {
    if n > 0 {
      TimesIsProduct(n - 1, x);
      var p := (n - 1) as real;
      assert n as real == p + 1.0;
      assert (p + 1.0) * x == p * x + x;
    }
  }

  lemma {:induction false} SumAdd<K>(a: map<K, real>, b: map<K, real>, c: map<K, real>)
    requires a.Keys == b.Keys == c.Keys
    requires forall k | k in a :: c[k] == a[k] + b[k]
    ensures Sum(c) == Sum(a) + Sum(b)
    decreases |a|
  {
    if a.Keys == {} {
      assert a == map[] && b == map[] && c == map[];
    } else {
      var k := Pick(a.Keys);
      SumRemove(a, k);
      SumRemove(b, k);
      SumRemove(c, k);
      SumAdd(a - {k}, b - {k}, c - {k});
    }
  }

  lemma {:induction false} SumConstant<K>(m: map<K, real>, x: real)
    requires forall k | k in m :: m[k] == x
    ensures Sum(m) == Times(|m|, x)
    decreases |m|
  {
    if m.Keys == {} {
      assert m == map[];
    } else {
      var k := Pick(m.Keys);
      SumRemove(m, k);
      var n := |m.Keys - {k}|;
      assert (m - {k}).Keys == m.Keys - {k};
      SumConstant(m - {k}, x);
      assert |m - {k}| == n && |m| == n + 1;
    }
  }

  lemma SumMonotone<K>(a: map<K, real>, b: map<K, real>)
    requires a.Keys == b.Keys
    requires forall k | k in a :: a[k] <= b[k]
    ensures Sum(a) <= Sum(b)
  {
    var spare := map k | k in a :: b[k] - a[k];
    SumAdd(a, spare, b);
    SumNonNegative(spare);
  }

  /** Entry-wise comparison with a common slack adds up. */
  lemma SumLeq<K>(a: map<K, real>, b: map<K, real>, slack: real)
    requires a.Keys == b.Keys
    requires forall k | k in a :: a[k] <= b[k] + slack
    ensures Sum(a) <= Sum(b) + Times(|a|, slack)
  {
    var slacks := map k | k in a :: slack;
    var upper := map k | k in a :: b[k] + slack;
    SumAdd(b, slacks, upper);
    SumMonotone(a, upper);
    assert slacks.Keys == a.Keys;
    SumConstant(slacks, slack);
  }

  /** If values less costs compare entry by entry up to a slack, so do the totals. */
  lemma NetSumsCompare<K>(value: map<K, real>, cost: map<K, real>, value': map<K, real>, cost': map<K, real>,
                          slack: real)
    requires value.Keys == cost.Keys == value'.Keys == cost'.Keys
    requires forall k | k in value :: value[k] - cost[k] <= value'[k] - cost'[k] + slack
    ensures Sum(value) - Sum(cost) <= Sum(value') - Sum(cost') + Times(|value|, slack)
  {
    var net := map k | k in value :: value[k] - cost[k];
    var net' := map k | k in value :: value'[k] - cost'[k];
    SumAdd(net, cost, value);
    SumAdd(net', cost', value');
    SumLeq(net, net', slack);
    assert net.Keys == value.Keys;
  }

  /** The values of `weights` an assignment `f` collects, one per key of `f`. */
  function Collect<A, B>(f: map<A, B>, weights: map<B, real>): map<A, real>
    requires forall a | a in f :: f[a] in weights
  {
    map a | a in f :: weights[f[a]]
  }

  /** The total weight splits into what an injective choice collects and what it leaves. */
  lemma {:induction false} InjectiveSplit<A, B>(f: map<A, B>, weights: map<B, real>)
    requires Injective(f) && forall a | a in f :: f[a] in weights
    ensures Sum(weights) == Sum(Collect(f, weights)) + Sum(weights - f.Values)
    decreases |f|
  {
    if f.Keys == {} {
      assert Collect(f, weights) == map[];
      assert f == map[] && f.Values == {} && weights - f.Values == weights;
    } else {
      var a := Pick(f.Keys);
      var f', weights' := f - {a}, weights - {f[a]};
      SumRemove(Collect(f, weights), a);
      SumRemove(weights, f[a]);
      assert Collect(f, weights) - {a} == Collect(f', weights');
      assert f'.Keys == f.Keys - {a};
      InjectiveSplit(f', weights');
      assert f.Values == f'.Values + {f[a]} by {
        forall b | b in f.Values ensures b in f'.Values + {f[a]} {
          var c :| c in f && f[c] == b;
          assert c == a || f'[c] == b;
        }
      }
      assert weights' - f'.Values == weights - f.Values;
    }
  }

  lemma SumOfZeros<K>(m: map<K, real>)
    requires forall k | k in m :: m[k] == 0.0
    ensures Sum(m) == 0.0
  {
  }

  lemma SumNonNegative<K>(m: map<K, real>)
    requires forall k | k in m :: m[k] >= 0.0
    ensures Sum(m) >= 0.0
  {
  }

  /**
   An injective choice collects at most the total weight, and all of it when
   every positive weight is chosen.
   */
  lemma InjectiveCollects<A, B>(f: map<A, B>, weights: map<B, real>)
    requires Injective(f) && forall a | a in f :: f[a] in weights
    requires forall b | b in weights :: weights[b] >= 0.0
    ensures Sum(Collect(f, weights)) <= Sum(weights)
    ensures (forall b | b in weights && weights[b] > 0.0 :: b in f.Values)
            ==> Sum(Collect(f, weights)) == Sum(weights)
  {
    InjectiveSplit(f, weights);
    SumNonNegative(weights - f.Values);
    if forall b | b in weights && weights[b] > 0.0 :: b in f.Values {
      SumOfZeros(weights - f.Values);
    }
  }

  function Restrict<K, V>(m: map<K, V>, keys: set<K>): map<K, V> {
    map k | k in m && k in keys :: m[k]
  }

  lemma RemoveInside<K>(m: map<K, real>, part: set<K>, k: K)
    requires k in m && k in part
    ensures Restrict(m, part) - {k} == Restrict(m - {k}, part) && m - {k} - part == m - part
  {
  }

  lemma RemoveOutside<K>(m: map<K, real>, part: set<K>, k: K)
    requires k in m && k !in part
    ensures Restrict(m, part) == Restrict(m - {k}, part) && m - {k} - part == m - part - {k}
  {
  }

  lemma {:induction false} SumSplit<K>(m: map<K, real>, part: set<K>)
    ensures Sum(m) == Sum(Restrict(m, part)) + Sum(m - part)
    decreases |m|
  {
    if m.Keys == {} {
      assert m == map[] && Restrict(m, part) == map[] && m - part == map[];
    } else {
      var k := Pick(m.Keys);
      SumRemove(m, k);
      assert (m - {k}).Keys == m.Keys - {k};
      SumSplit(m - {k}, part);
      if k in part {
        RemoveInside(m, part, k);
        SumRemove(Restrict(m, part), k);
      } else {
        RemoveOutside(m, part, k);
        SumRemove(m - part, k);
      }
    }
  }

  /** `x` for each of these. */
  function Each<K>(keys: set<K>, part: set<K>, x: real): map<K, real> {
    map a | a in keys :: if a in part then x else 0.0
  }

  lemma EachSum<K>(keys: set<K>, part: set<K>, x: real)
    requires part <= keys
    ensures Sum(Each(keys, part, x)) == Times(|part|, x)
  {
    var m := Each(keys, part, x);
    SumSplit(m, part);
    assert Restrict(m, part).Keys == part;
    assert |Restrict(m, part)| == |part|;
    SumConstant(Restrict(m, part), x);
    SumOfZeros(m - part);
  }
}
