/** Python's `sorted` on a set of ids, for the agent and task ids of announcements and rounds. */
module IdOrder {
  import opened Types
  import Sets

  lemma {:induction false} SomeIdIsLeast(s: set<TaskId>) returns (least: TaskId)
    requires s != {}
    ensures least in s && forall x | x in s :: least <= x
    decreases |s|
  {
    var x := Sets.Pick(s);
    var rest := s - {x};
    if rest == {} {
      least := x;
      assert forall y | y in s :: y == x || y in rest;
    } else {
      var y := SomeIdIsLeast(rest);
      least := if x < y then x else y;
      assert forall z | z in s :: z == x || z in rest;
    }
  }

  function Least(s: set<TaskId>): (least: TaskId)
    requires s != {}
    ensures least in s && forall x | x in s :: least <= x
  {
    assert exists l | l in s :: forall x | x in s :: l <= x by {
      var l := SomeIdIsLeast(s);
    }
    var least :| least in s && forall x | x in s :: least <= x;
    least
  }

  /** Strictly increasing: sorted and without duplicates. */
  ghost predicate Increasing(s: seq<TaskId>) {
    forall i, j | 0 <= i < j < |s| :: s[i] < s[j]
  }

  function SortedIds(s: set<TaskId>): (r: seq<TaskId>)
    ensures |r| == |s|
    decreases |s|
  {
    if s == {} then [] else [Least(s)] + SortedIds(s - {Least(s)})
  }

  /** Sorting lists exactly the ids of the set, each once, in increasing order. */
  lemma {:induction false} SortedIsSorted(s: set<TaskId>)
    ensures forall x :: x in SortedIds(s) <==> x in s
    ensures Increasing(SortedIds(s)) && NoDuplicates(SortedIds(s))
    decreases |s|
  {
    if s != {} {
      SortedIsSorted(s - {Least(s)});
      var rest := SortedIds(s - {Least(s)});
      forall j | 0 <= j < |rest| ensures Least(s) < rest[j] {
        assert rest[j] in rest;
      }
    }
  }
}
