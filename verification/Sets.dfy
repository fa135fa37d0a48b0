/** Facts about finite sets, stated for every element type. */
module Sets {
  import opened Types

  lemma Pick<T>(s: set<T>) returns (x: T)
    requires s != {}
    ensures x in s
  {
    x :| x in s;
  }

  lemma SubsetCardinality<T>(a: set<T>, b: set<T>)
    requires a <= b
    ensures |a| <= |b|
    ensures |a| == |b| ==> a == b
  {
    assert b == a + (b - a);
    if |a| == |b| && b - a != {} {
      var x := Pick(b - a);
      assert false;
    }
  }

  lemma SomethingIsLeft<T>(part: set<T>, whole: set<T>)
    requires !(whole <= part)
    ensures whole - part != {}
  {
    var x :| x in whole && x !in part;
    assert x in whole - part;
  }

  lemma Partition<T>(whole: set<T>, a: set<T>, b: set<T>)
    requires whole == a + b && a !! b
    ensures |whole| == |a| + |b|
  {
  }

  ghost predicate Injective<A, B>(f: map<A, B>) {
    forall a, b | a in f && b in f && a != b :: f[a] != f[b]
  }

  /** An injective map has as many values as keys. */
  lemma {:induction false} InjectiveCardinality<A, B>(f: map<A, B>)
    requires Injective(f)
    ensures |f.Values| == |f.Keys|
    decreases |f.Keys|
  {
    if f.Keys == {} {
      assert f.Values == {};
    } else {
      var a := Pick(f.Keys);
      var f' := f - {a};
      assert f'.Keys == f.Keys - {a};
      InjectiveCardinality(f');
      assert f.Values == f'.Values + {f[a]} by {
        forall b | b in f.Values ensures b in f'.Values + {f[a]} {
          var c :| c in f && f[c] == b;
          assert c == a || f'[c] == b;
        }
      }
      assert f[a] !in f'.Values;
    }
  }

  /** An injective map into a set of as many elements as it has keys reaches all of them. */
  lemma InjectiveIsOnto<A, B>(f: map<A, B>, codomain: set<B>)
    requires Injective(f) && f.Values <= codomain && |f.Keys| == |codomain|
    ensures f.Values == codomain
  {
    InjectiveCardinality(f);
    SubsetCardinality(f.Values, codomain);
  }

  lemma ElementsMore<T>(s: seq<T>, x: T)
    ensures Elements(s + [x]) == Elements(s) + {x}
  {
  }

  /** One more element counts unless it is among those taken away. */
  lemma OneMoreLeft<T>(s: set<T>, t: set<T>, x: T)
    requires x !in s
    ensures |s + {x} - t| == |s - t| + if x in t then 0 else 1
  {
    if x in t {
      assert s + {x} - t == s - t;
    } else {
      assert s + {x} - t == (s - t) + {x};
    }
  }

  lemma {:induction false} ElementsCardinality<T>(s: seq<T>)
    requires NoDuplicates(s)
    ensures |Elements(s)| == |s|
    decreases |s|
  {
    if s != [] {
      var init, last := s[..|s| - 1], s[|s| - 1];
      ElementsCardinality(init);
      assert Elements(s) == Elements(init) + {last};
    }
  }
}
