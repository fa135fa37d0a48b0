/**
 The local price table. Copies are reconciled by entry-wise lexicographic
 maximum, which makes the tables over a task set a join semilattice.
 */
module Prices {
  import opened Types
  import opened Sets

  /** Lexicographic order: price first, then bidder. */
  predicate Leq(a: PriceEntry, b: PriceEntry) {
    a.price < b.price || (a.price == b.price && a.bidder <= b.bidder)
  }

  predicate Less(a: PriceEntry, b: PriceEntry) {
    Leq(a, b) && a != b
  }

  function Max(a: PriceEntry, b: PriceEntry): PriceEntry {
    if Less(a, b) then b else a
  }

  /** `a` is entry-wise at most `b`, over the same tasks. */
  ghost predicate Below(a: Table, b: Table) {
    a.Keys == b.Keys && forall t | t in a :: Leq(a[t], b[t])
  }

  /** As `Below`, but only on the tasks `b` knows. */
  ghost predicate BelowWhereKnown(a: Table, b: Table) {
    forall t | t in a && t in b :: Leq(a[t], b[t])
  }

  function Join(ours: Table, theirs: Table): Table {
    map t | t in ours :: if t in theirs then Max(ours[t], theirs[t]) else ours[t]
  }

  function JoinAll(ours: Table, incoming: seq<Table>): Table {
    if incoming == [] then ours
    else Join(JoinAll(ours, incoming[..|incoming| - 1]), incoming[|incoming| - 1])
  }

  /** Merging yields the least upper bound: it loses nothing and invents nothing. */
  lemma JoinIsLeastUpperBound(ours: Table, theirs: Table, bound: Table)
    ensures Below(ours, Join(ours, theirs)) && BelowWhereKnown(theirs, Join(ours, theirs))
    ensures Below(Join(ours, theirs), bound) <==> Below(ours, bound) && BelowWhereKnown(theirs, bound)
  {
    var m := Join(ours, theirs);
    if Below(m, bound) {
      forall t | t in theirs && t in bound ensures Leq(theirs[t], bound[t]) {
        assert Leq(m[t], bound[t]);
      }
      assert Below(ours, bound) by {
        forall t | t in ours ensures Leq(ours[t], bound[t]) {
          assert Leq(m[t], bound[t]);
        }
      }
    }
  }

  lemma BelowIsAntisymmetric(a: Table, b: Table)
    requires Below(a, b) && Below(b, a)
    ensures a == b
  {
    forall t | t in a ensures a[t] == b[t] {
      assert Leq(a[t], b[t]) && Leq(b[t], a[t]);
    }
  }

  lemma BelowIsTransitive(a: Table, b: Table, c: Table)
    requires Below(a, b) && Below(b, c)
    ensures Below(a, c)
  {
    forall t | t in a ensures Leq(a[t], c[t]) {
      assert Leq(a[t], b[t]) && Leq(b[t], c[t]);
    }
  }

  /** Merging a batch of tables one by one yields the least upper bound of all of them. */
  lemma {:induction false} JoinAllIsLeastUpperBound(ours: Table, incoming: seq<Table>, bound: Table)
    ensures Below(ours, JoinAll(ours, incoming))
    ensures forall i | 0 <= i < |incoming| :: BelowWhereKnown(incoming[i], JoinAll(ours, incoming))
    ensures Below(JoinAll(ours, incoming), bound)
            <==> Below(ours, bound) && forall i | 0 <= i < |incoming| :: BelowWhereKnown(incoming[i], bound)
  {
    if incoming != [] {
      var init, last := incoming[..|incoming| - 1], incoming[|incoming| - 1];
      var m, all := JoinAll(ours, init), JoinAll(ours, incoming);
      JoinAllIsLeastUpperBound(ours, init, bound);
      JoinAllIsLeastUpperBound(ours, init, all);
      JoinIsLeastUpperBound(m, last, bound);
      JoinIsLeastUpperBound(m, last, all);
      assert forall i | 0 <= i < |incoming| - 1 :: incoming[i] == init[i];
    }
  }

  /** Reordering and duplicating incoming tables never changes the outcome. */
  lemma JoinOrderIsIrrelevant(ours: Table, xs: seq<Table>, ys: seq<Table>)
    requires forall x :: x in xs <==> x in ys
    ensures JoinAll(ours, xs) == JoinAll(ours, ys)
  {
    var mx, my := JoinAll(ours, xs), JoinAll(ours, ys);
    JoinAllIsLeastUpperBound(ours, xs, my);
    JoinAllIsLeastUpperBound(ours, ys, mx);
    forall i | 0 <= i < |xs| ensures BelowWhereKnown(xs[i], my) {
      assert xs[i] in ys;
      var j :| 0 <= j < |ys| && ys[j] == xs[i];
    }
    forall i | 0 <= i < |ys| ensures BelowWhereKnown(ys[i], mx) {
      assert ys[i] in xs;
      var j :| 0 <= j < |xs| && xs[j] == ys[i];
    }
    BelowIsAntisymmetric(mx, my);
  }

  class PriceTable {
    var entries: Table

    constructor (taskIds: set<TaskId>)
      ensures entries == InitialTable(taskIds)
    {
      entries := map t | t in taskIds :: INITIAL_ENTRY;
    }

    /** Max-merge another agent's view in place; unknown tasks are ignored. */
    method Merge(incoming: Table) returns (changed: bool)
      modifies this
      ensures entries == Join(old(entries), incoming)
      ensures changed <==> entries != old(entries)
    {
      changed := false;
      var todo: set<TaskId> := incoming.Keys;
      while todo != {}
        invariant todo <= incoming.Keys
        invariant entries == Join(old(entries), incoming - todo)
        invariant changed <==> entries != old(entries)
      {
        ghost var someTask := Pick(todo);
        var taskId :| taskId in todo;
        todo := todo - {taskId};
        if taskId in entries {
          var ours := entries[taskId];
          var merged := Max(ours, incoming[taskId]);
          if merged != ours {
            assert merged.price >= ours.price;  // an entry never decreases
            assert ours == old(entries)[taskId];
            entries := entries[taskId := merged];
            changed := true;
          }
        }
        assert entries == Join(old(entries), incoming - todo);
      }
      assert incoming - {} == incoming;
    }

    /** Raise a task's price and claim its slot. */
    method Bid(taskId: TaskId, increment: real, bidder: AgentId, epsilon: real)
      requires taskId in entries
      requires increment >= epsilon
      requires Less(entries[taskId], PriceEntry(entries[taskId].price + increment, bidder))
      modifies this
      ensures entries == old(entries)[taskId := PriceEntry(old(entries)[taskId].price + increment, bidder)]
    {
      var ours := entries[taskId];
      entries := entries[taskId := PriceEntry(ours.price + increment, bidder)];
    }
  }

  function InitialTable(taskIds: set<TaskId>): Table {
    map t | t in taskIds :: INITIAL_ENTRY
  }
}
