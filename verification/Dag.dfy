/**
 Task dependencies: Kahn's algorithm decides whether they are acyclic, the
 available tasks, and everything that depends on a task.
 */
module Dag {
  import opened Types
  import Sets

  /** Tasks by id, as in a dictionary comprehension over their ids. */
  type Tasks = map<TaskId, Task>

  ghost predicate Keyed(tasks: Tasks) {
    forall t | t in tasks :: tasks[t].id == t
  }

  /** No task depends on an unknown one. */
  ghost predicate Closed(tasks: Tasks) {
    forall t | t in tasks :: tasks[t].prerequisites <= tasks.Keys
  }

  /** A chain of n + 1 prerequisite links leads from `t` to `u`. */
  ghost predicate DependsIn(tasks: Tasks, t: TaskId, u: TaskId, n: nat)
    decreases n
  {
    t in tasks &&
    if n == 0 then u in tasks[t].prerequisites
    else exists v :: v in tasks[t].prerequisites && DependsIn(tasks, v, u, n - 1)
  }

  /** `t` requires `u`, directly or not. */
  ghost predicate Depends(tasks: Tasks, t: TaskId, u: TaskId) {
    exists n: nat :: DependsIn(tasks, t, u, n)
  }

  ghost predicate Acyclic(tasks: Tasks) {
    forall t {:trigger Depends(tasks, t, t)} :: !Depends(tasks, t, t)
  }

  ghost predicate IsDag(tasks: Tasks) {
    Keyed(tasks) && Closed(tasks) && Acyclic(tasks)
  }

  /** The first link of a longer chain. */
  ghost function LinkTo(tasks: Tasks, t: TaskId, u: TaskId, n: nat): (v: TaskId)
    requires n > 0 && DependsIn(tasks, t, u, n)
    ensures t in tasks && v in tasks[t].prerequisites && DependsIn(tasks, v, u, n - 1)
  {
    var v :| v in tasks[t].prerequisites && DependsIn(tasks, v, u, n - 1);
    v
  }

  lemma {:induction false} DependsInIsTransitive(tasks: Tasks, t: TaskId, u: TaskId, v: TaskId, m: nat, n: nat)
    requires DependsIn(tasks, t, u, m) && DependsIn(tasks, u, v, n)
    ensures DependsIn(tasks, t, v, m + n + 1)
    decreases m
  {
    if m > 0 {
      var w := LinkTo(tasks, t, u, m);
      DependsInIsTransitive(tasks, w, u, v, m - 1, n);
    } else {
      assert DependsIn(tasks, u, v, m + n);
    }
  }

  lemma DependsIsTransitive(tasks: Tasks, t: TaskId, u: TaskId, v: TaskId)
    requires Depends(tasks, t, u) && Depends(tasks, u, v)
    ensures Depends(tasks, t, v)
  {
    var m: nat :| DependsIn(tasks, t, u, m);
    var n: nat :| DependsIn(tasks, u, v, n);
    DependsInIsTransitive(tasks, t, u, v, m, n);
  }

  lemma PrerequisiteIsDepended(tasks: Tasks, t: TaskId, u: TaskId)
    requires t in tasks && u in tasks[t].prerequisites
    ensures Depends(tasks, t, u)
  {
    assert DependsIn(tasks, t, u, 0);
  }

  /** Everything `t` requires, directly or not. */
  ghost function Ancestors(tasks: Tasks, t: TaskId): set<TaskId> {
    set u | u in tasks && Depends(tasks, t, u)
  }

  /** In a DAG a prerequisite has fewer ancestors: the measure for recursion over dependencies. */
  lemma PrerequisiteHasFewerAncestors(tasks: Tasks, t: TaskId, u: TaskId)
    requires Closed(tasks) && Acyclic(tasks) && t in tasks && u in tasks[t].prerequisites
    ensures u in tasks && |Ancestors(tasks, u)| < |Ancestors(tasks, t)|
  {
    PrerequisiteIsDepended(tasks, t, u);
    forall v | v in Ancestors(tasks, u) ensures v in Ancestors(tasks, t) {
      DependsIsTransitive(tasks, t, u, v);
    }
    assert !Depends(tasks, u, u);
    assert u in Ancestors(tasks, t) && u !in Ancestors(tasks, u);
    Sets.SubsetCardinality(Ancestors(tasks, u), Ancestors(tasks, t));
  }

  /** In a DAG some task of every non-empty set has all its prerequisites outside the set. */
  lemma {:induction false} SomeTaskIsMinimal(tasks: Tasks, rest: set<TaskId>, t: TaskId) returns (first: TaskId)
    requires Closed(tasks) && Acyclic(tasks) && rest <= tasks.Keys && t in rest
    ensures first in rest && tasks[first].prerequisites * rest == {}
    decreases |Ancestors(tasks, t)|
  {
    if tasks[t].prerequisites * rest == {} {
      first := t;
    } else {
      var u := Sets.Pick(tasks[t].prerequisites * rest);
      PrerequisiteHasFewerAncestors(tasks, t, u);
      first := SomeTaskIsMinimal(tasks, rest, u);
    }
  }

  // ------------------------------------------------------ topological orders

  /** Every task once, each after all its prerequisites. */
  ghost predicate IsTopologicalOrder(tasks: Tasks, order: seq<TaskId>) {
    && NoDuplicates(order)
    && (forall t :: t in order <==> t in tasks)
    && PrerequisitesFirst(tasks, order)
  }

  ghost predicate PrerequisitesFirst(tasks: Tasks, order: seq<TaskId>) {
    forall i | 0 <= i < |order| && order[i] in tasks :: PrerequisitesBefore(tasks[order[i]], order, i)
  }

  ghost predicate PrerequisitesBefore(task: Task, order: seq<TaskId>, i: nat)
    requires i <= |order|
  {
    forall u | u in task.prerequisites :: u in order[..i]
  }

  lemma PrerequisiteIsEarlier(tasks: Tasks, order: seq<TaskId>, i: nat, u: TaskId) returns (j: nat)
    requires IsTopologicalOrder(tasks, order) && i < |order|
    requires order[i] in tasks && u in tasks[order[i]].prerequisites
    ensures j < i && order[j] == u
  {
    assert PrerequisitesBefore(tasks[order[i]], order, i);
    j :| 0 <= j < i && order[j] == u;
  }

  /** Dependencies lead to earlier positions. */
  lemma {:induction false} DependenciesComeEarlier(tasks: Tasks, order: seq<TaskId>, i: nat, u: TaskId, n: nat)
    returns (j: nat)
    requires IsTopologicalOrder(tasks, order) && i < |order| && DependsIn(tasks, order[i], u, n)
    ensures j < i && order[j] == u
    decreases n
  {
    var v := if n == 0 then u else LinkTo(tasks, order[i], u, n);
    j := PrerequisiteIsEarlier(tasks, order, i, v);
    if n > 0 {
      j := DependenciesComeEarlier(tasks, order, j, u, n - 1);
    }
  }

  lemma OrderedMeansAcyclic(tasks: Tasks, order: seq<TaskId>)
    requires IsTopologicalOrder(tasks, order)
    ensures Closed(tasks) && Acyclic(tasks)
  {
    forall t ensures !Depends(tasks, t, t) {
      if n: nat :| DependsIn(tasks, t, t, n) {
        var i: nat :| i < |order| && order[i] == t;
        var j := DependenciesComeEarlier(tasks, order, i, t, n);
        assert false;
      }
    }
    forall t | t in tasks ensures tasks[t].prerequisites <= tasks.Keys {
      var i: nat :| i < |order| && order[i] == t;
      assert PrerequisitesBefore(tasks[t], order, i);
    }
  }

  // ------------------------------------------------------ Kahn's algorithm

  /** How many prerequisites of `t` are not done. */
  ghost function Missing(tasks: Tasks, t: TaskId, done: set<TaskId>): nat
    requires t in tasks
  {
    |tasks[t].prerequisites - done|
  }

  lemma MissingNext(tasks: Tasks, t: TaskId, done: set<TaskId>, next: TaskId)
    requires t in tasks && next !in done
    ensures Missing(tasks, t, done + {next})
            == Missing(tasks, t, done) - if next in tasks[t].prerequisites then 1 else 0
  {
    var rest := tasks[t].prerequisites - done;
    assert tasks[t].prerequisites - (done + {next}) == rest - {next};
  }

  /**
   While the dependents of the last task are being released: the in-degrees of
   the tasks in `released` count what `done'` misses, the others' what `done` does.
   */
  ghost predicate Counts(tasks: Tasks, done: set<TaskId>, done': set<TaskId>, released: set<TaskId>,
                         inDegree: map<TaskId, int>)
  {
    && inDegree.Keys == tasks.Keys
    && forall t | t in tasks :: inDegree[t] == Missing(tasks, t, if t in released then done' else done)
  }

  /** The frontier lists, once each, the tasks not done whose in-degree is zero. */
  ghost predicate IsFrontier(done: set<TaskId>, inDegree: map<TaskId, int>, frontier: seq<TaskId>) {
    NoDuplicates(frontier) && forall t :: t in frontier <==> t in inDegree && t !in done && inDegree[t] == 0
  }

  lemma ReleaseNext(tasks: Tasks, done: set<TaskId>, next: TaskId, released: set<TaskId>, inDegree: map<TaskId, int>,
                    t: TaskId)
    requires Counts(tasks, done, done + {next}, released, inDegree) && next !in done && t in tasks && t !in released
    ensures var inDegree' := if next in tasks[t].prerequisites then inDegree[t := inDegree[t] - 1] else inDegree;
            Counts(tasks, done, done + {next}, released + {t}, inDegree')
  {
    MissingNext(tasks, t, done, next);
  }

  /** A task whose in-degree drops to zero joins the frontier; any other change leaves it alone. */
  lemma FrontierNext(done: set<TaskId>, inDegree: map<TaskId, int>, frontier: seq<TaskId>, t: TaskId, degree: int)
    requires IsFrontier(done, inDegree, frontier) && t in inDegree && t !in done && inDegree[t] != 0
    ensures IsFrontier(done, inDegree[t := degree], if degree == 0 then frontier + [t] else frontier)
  {
  }

  /** While dependents are released: in-degrees, frontier, and nothing missing for what is done. */
  ghost predicate Releasing(tasks: Tasks, done: set<TaskId>, after: set<TaskId>, released: set<TaskId>,
                            inDegree: map<TaskId, int>, frontier: seq<TaskId>)
  {
    && Counts(tasks, done, after, released, inDegree)
    && IsFrontier(after, inDegree, frontier)
    && forall t | t in after && t in tasks :: inDegree[t] == 0
  }

  /** The in-degree of one task drops if it requires the task that is done. */
  method ReleaseOne(tasks: Tasks, ghost done: set<TaskId>, next: TaskId, ghost after: set<TaskId>,
                    ghost released: set<TaskId>, inDegree: map<TaskId, int>, frontier: seq<TaskId>, t: TaskId)
    returns (inDegree': map<TaskId, int>, frontier': seq<TaskId>)
    requires next !in done && after == done + {next} && t in tasks && t !in released
    requires Releasing(tasks, done, after, released, inDegree, frontier)
    ensures Releasing(tasks, done, after, released + {t}, inDegree', frontier')
  {
    inDegree', frontier' := inDegree, frontier;
    ReleaseNext(tasks, done, next, released, inDegree, t);
    if next in tasks[t].prerequisites {
      assert next in tasks[t].prerequisites - done;
      FrontierNext(after, inDegree, frontier, t, inDegree[t] - 1);
      inDegree' := inDegree[t := inDegree[t] - 1];
      if inDegree'[t] == 0 {
        frontier' := frontier + [t];
      }
    }
  }

  /** One more task is done: its dependents' in-degrees drop, and those at zero join the frontier. */
  method ReleaseDependents(tasks: Tasks, ghost done: set<TaskId>, next: TaskId, ghost after: set<TaskId>,
                           inDegree: map<TaskId, int>, frontier: seq<TaskId>)
    returns (inDegree': map<TaskId, int>, frontier': seq<TaskId>)
    requires next !in done && after == done + {next} && Releasing(tasks, done, after, {}, inDegree, frontier)
    ensures Releasing(tasks, done, after, tasks.Keys, inDegree', frontier')
  {
    inDegree', frontier' := inDegree, frontier;
    var todo := tasks.Keys;
    ghost var released: set<TaskId> := {};
    while todo != {}
      invariant todo == tasks.Keys - released && released <= tasks.Keys
      invariant Releasing(tasks, done, after, released, inDegree', frontier')
    {
      var t :| t in todo;
      inDegree', frontier' := ReleaseOne(tasks, done, next, after, released, inDegree', frontier', t);
      todo, released := todo - {t}, released + {t};
    }
    assert released == tasks.Keys;
  }

  lemma ReleasedAll(tasks: Tasks, done: set<TaskId>, after: set<TaskId>, inDegree: map<TaskId, int>,
                    frontier: seq<TaskId>)
    requires Releasing(tasks, done, after, tasks.Keys, inDegree, frontier)
    ensures Counts(tasks, after, after, {}, inDegree) && IsFrontier(after, inDegree, frontier)
  {
  }

  /** The frontier is not empty while some task has all its prerequisites done. */
  lemma MinimalIsFree(tasks: Tasks, done: set<TaskId>, inDegree: map<TaskId, int>, frontier: seq<TaskId>, t: TaskId)
    requires Closed(tasks) && Counts(tasks, done, done, {}, inDegree) && IsFrontier(done, inDegree, frontier)
    requires t in tasks.Keys - done && tasks[t].prerequisites * (tasks.Keys - done) == {}
    ensures frontier != []
  {
    assert tasks[t].prerequisites - done == {};
    assert t in frontier;
  }

  /** With acyclic dependencies the frontier is not empty before all tasks are done. */
  lemma FrontierLasts(tasks: Tasks, done: set<TaskId>, inDegree: map<TaskId, int>, frontier: seq<TaskId>)
    requires Closed(tasks) && Acyclic(tasks) && tasks.Keys - done != {}
    requires Counts(tasks, done, done, {}, inDegree) && IsFrontier(done, inDegree, frontier)
    ensures frontier != []
  {
    var t := Sets.Pick(tasks.Keys - done);
    var first := SomeTaskIsMinimal(tasks, tasks.Keys - done, t);
    MinimalIsFree(tasks, done, inDegree, frontier, first);
  }

  /** What has been ordered so far. */
  ghost predicate Ordered(tasks: Tasks, order: seq<TaskId>) {
    NoDuplicates(order) && Elements(order) <= tasks.Keys && PrerequisitesFirst(tasks, order)
  }

  /** A task with nothing missing may come next. */
  lemma OrderedNext(tasks: Tasks, order: seq<TaskId>, t: TaskId)
    requires Ordered(tasks, order) && t in tasks && t !in order && Missing(tasks, t, Elements(order)) == 0
    ensures Ordered(tasks, order + [t]) && Elements(order + [t]) == Elements(order) + {t}
  {
    var longer := order + [t];
    assert tasks[t].prerequisites - Elements(order) == {};
    assert PrerequisitesBefore(tasks[t], longer, |order|) by {
      assert longer[..|order|] == order;
      forall u | u in tasks[t].prerequisites ensures u in order {
        assert u !in tasks[t].prerequisites - Elements(order);
      }
    }
    forall i | 0 <= i < |longer| && longer[i] in tasks ensures PrerequisitesBefore(tasks[longer[i]], longer, i) {
      if i < |order| {
        assert longer[..i] == order[..i];
        assert PrerequisitesBefore(tasks[order[i]], order, i);
      }
    }
  }

  /** Nothing is missing for tasks already ordered. */
  lemma OrderedMissNothing(tasks: Tasks, order: seq<TaskId>, t: TaskId)
    requires Ordered(tasks, order) && t in order
    ensures t in tasks && Missing(tasks, t, Elements(order)) == 0
  {
    var i: nat :| i < |order| && order[i] == t;
    assert PrerequisitesBefore(tasks[order[i]], order, i);
    assert tasks[t].prerequisites - Elements(order) == {};
  }

  lemma OrderedAll(tasks: Tasks, order: seq<TaskId>)
    requires Ordered(tasks, order)
    ensures |order| == |tasks| <==> tasks.Keys <= Elements(order)
    ensures |order| == |tasks| ==> IsTopologicalOrder(tasks, order)
    ensures |order| <= |tasks|
  {
    Sets.ElementsCardinality(order);
    assert |tasks| == |tasks.Keys|;
    Sets.SubsetCardinality(Elements(order), tasks.Keys);
    if tasks.Keys <= Elements(order) {
      assert tasks.Keys == Elements(order);
    }
    assert forall t :: t in order <==> t in Elements(order);
  }

  /** Popping the frontier yields a task that is free to come next. */
  lemma PopFrontier(done: set<TaskId>, inDegree: map<TaskId, int>, frontier: seq<TaskId>)
    requires IsFrontier(done, inDegree, frontier) && frontier != []
    ensures var rest, next := frontier[..|frontier| - 1], frontier[|frontier| - 1];
            next in inDegree && next !in done && inDegree[next] == 0 && IsFrontier(done + {next}, inDegree, rest)
  {
    assert frontier == frontier[..|frontier| - 1] + [frontier[|frontier| - 1]];
  }

  lemma CountsStart(tasks: Tasks, inDegree: map<TaskId, int>)
    requires inDegree == map t | t in tasks :: |tasks[t].prerequisites|
    ensures Counts(tasks, {}, {}, {}, inDegree)
  {
    forall t | t in tasks ensures inDegree[t] == Missing(tasks, t, {}) {
      assert tasks[t].prerequisites - {} == tasks[t].prerequisites;
    }
  }

  /** The tasks without prerequisites. */
  method FindFree(inDegree: map<TaskId, int>) returns (frontier: seq<TaskId>)
    ensures IsFrontier({}, inDegree, frontier)
  {
    frontier := [];
    var todo := inDegree.Keys;
    while todo != {}
      invariant todo <= inDegree.Keys
      invariant NoDuplicates(frontier)
      invariant forall t :: t in frontier <==> t in inDegree.Keys - todo && inDegree[t] == 0
    {
      var t :| t in todo;
      todo := todo - {t};
      if inDegree[t] == 0 {
        frontier := frontier + [t];
      }
    }
  }

  /** What the loop of Kahn's algorithm keeps. */
  ghost predicate KahnInvariant(tasks: Tasks, order: seq<TaskId>, inDegree: map<TaskId, int>, frontier: seq<TaskId>) {
    && Ordered(tasks, order)
    && Counts(tasks, Elements(order), Elements(order), {}, inDegree)
    && IsFrontier(Elements(order), inDegree, frontier)
  }

  /** Order one task from the frontier. */
  method OrderOne(tasks: Tasks, order: seq<TaskId>, inDegree: map<TaskId, int>, frontier: seq<TaskId>)
    returns (order': seq<TaskId>, inDegree': map<TaskId, int>, frontier': seq<TaskId>)
    requires Keyed(tasks) && KahnInvariant(tasks, order, inDegree, frontier) && frontier != []
    ensures KahnInvariant(tasks, order', inDegree', frontier') && |order'| == |order| + 1
  {
    var rest, next := frontier[..|frontier| - 1], frontier[|frontier| - 1];
    PopFrontier(Elements(order), inDegree, frontier);
    OrderedNext(tasks, order, next);
    ghost var done := Elements(order);
    assert Counts(tasks, done, done + {next}, {}, inDegree);
    forall t | t in done + {next} ensures t in tasks && inDegree[t] == 0 {
      if t != next {
        OrderedMissNothing(tasks, order, t);
      }
    }
    order' := order + [next];
    inDegree', frontier' := ReleaseDependents(tasks, done, next, done + {next}, inDegree, rest);
    ReleasedAll(tasks, done, done + {next}, inDegree', frontier');
  }

  /**
   Kahn's algorithm: an order is found exactly when the dependencies are
   acyclic, and it puts every task after its prerequisites.
   */
  method TopologicalOrder(tasks: Tasks) returns (r: Option<seq<TaskId>>)
    requires Keyed(tasks) && Closed(tasks)
    ensures r.Some? <==> Acyclic(tasks)
    ensures r.Some? ==> IsTopologicalOrder(tasks, r.value)
  {
    var inDegree: map<TaskId, int> := map t | t in tasks :: |tasks[t].prerequisites|;
    var frontier := FindFree(inDegree);
    var order: seq<TaskId> := [];
    CountsStart(tasks, inDegree);
    assert Elements(order) == {};
    while frontier != []
      invariant KahnInvariant(tasks, order, inDegree, frontier)
      decreases |tasks| - |order|
    {
      OrderedAll(tasks, order);
      order, inDegree, frontier := OrderOne(tasks, order, inDegree, frontier);
      OrderedAll(tasks, order);
    }
    OrderedAll(tasks, order);
    if |order| != |tasks| {
      Sets.SomethingIsLeft(Elements(order), tasks.Keys);
      if Acyclic(tasks) {
        FrontierLasts(tasks, Elements(order), inDegree, frontier);
      }
      return None;
    }
    OrderedMeansAcyclic(tasks, order);
    return Some(order);
  }

  datatype DagResult = Valid(tasks: Tasks) | UnknownPrerequisite(task: TaskId) | Cycle

  /** Later tasks replace earlier ones of the same id. */
  function ById(list: seq<Task>): (tasks: Tasks)
    ensures Keyed(tasks)
  {
    if list == [] then map[] else ById(list[..|list| - 1])[list[|list| - 1].id := list[|list| - 1]]
  }

  /** Build the dependency graph; it is refused exactly when it is not a DAG. */
  method MakeDag(list: seq<Task>) returns (r: DagResult)
    ensures r.Valid? <==> IsDag(ById(list))
    ensures r.Valid? ==> r.tasks == ById(list)
    ensures r.UnknownPrerequisite? ==> r.task in ById(list) && !(ById(list)[r.task].prerequisites <= ById(list).Keys)
    ensures r.Cycle? ==> Closed(ById(list))
  {
    r := CheckDag(ById(list));
  }

  /** Unknown prerequisites are looked for first, then cycles. */
  method CheckDag(tasks: Tasks) returns (r: DagResult)
    requires Keyed(tasks)
    ensures r.Valid? <==> IsDag(tasks)
    ensures r.Valid? ==> r.tasks == tasks
    ensures r.UnknownPrerequisite? ==> r.task in tasks && !(tasks[r.task].prerequisites <= tasks.Keys)
    ensures r.Cycle? ==> Closed(tasks)
  {
    var todo := tasks.Keys;
    while todo != {}
      invariant todo <= tasks.Keys
      invariant forall t | t in tasks.Keys - todo :: tasks[t].prerequisites <= tasks.Keys
    {
      var t :| t in todo;
      if !(tasks[t].prerequisites <= tasks.Keys) {
        return UnknownPrerequisite(t);
      }
      todo := todo - {t};
    }
    var order := TopologicalOrder(tasks);
    return if order.Some? then Valid(tasks) else Cycle;
  }

  // ------------------------------------------------------ what can run now

  function Available(tasks: Tasks, completed: set<TaskId>): set<TaskId> {
    set t | t in tasks && t !in completed && tasks[t].prerequisites <= completed
  }

  /** In a DAG something is available until everything is complete. */
  lemma SomethingIsAvailable(tasks: Tasks, completed: set<TaskId>)
    requires IsDag(tasks) && !(tasks.Keys <= completed)
    ensures Available(tasks, completed) != {}
  {
    var rest := tasks.Keys - completed;
    Sets.SomethingIsLeft(completed, tasks.Keys);
    var t := Sets.Pick(rest);
    var first := SomeTaskIsMinimal(tasks, rest, t);
    assert tasks[first].prerequisites <= completed by {
      forall u | u in tasks[first].prerequisites ensures u in completed {
        assert u in tasks && u !in tasks[first].prerequisites * rest;
      }
    }
    assert first in Available(tasks, completed);
  }

  // ------------------------------------------------------ dependents

  /** Tasks that are not yet out and require one of these directly. */
  function NextDependents(tasks: Tasks, out: set<TaskId>, frontier: set<TaskId>): set<TaskId> {
    set t | t in tasks && t !in out && tasks[t].prerequisites * frontier != {}
  }

  /** `out` holds dependents of `root` only, and is closed except for those of the frontier. */
  ghost predicate Exploring(tasks: Tasks, root: TaskId, out: set<TaskId>, frontier: set<TaskId>) {
    && out <= tasks.Keys
    && (forall t | t in out :: Depends(tasks, t, root))
    && frontier <= out + {root}
    && (forall t | t in tasks && t !in out :: tasks[t].prerequisites * (out + {root} - frontier) == {})
  }

  lemma ExploringNext(tasks: Tasks, root: TaskId, out: set<TaskId>, frontier: set<TaskId>)
    requires Exploring(tasks, root, out, frontier)
    ensures var next := NextDependents(tasks, out, frontier); Exploring(tasks, root, out + next, next)
  {
    var next := NextDependents(tasks, out, frontier);
    forall t | t in next ensures Depends(tasks, t, root) {
      var u := Sets.Pick(tasks[t].prerequisites * frontier);
      PrerequisiteIsDepended(tasks, t, u);
      if u != root {
        DependsIsTransitive(tasks, t, u, root);
      }
    }
    forall t | t in tasks && t !in out + next ensures tasks[t].prerequisites * (out + next + {root} - next) == {} {
      assert tasks[t].prerequisites * frontier == {};
      assert tasks[t].prerequisites * (out + {root} - frontier) == {};
    }
  }

  lemma {:induction false} ExploredAllDependents(tasks: Tasks, root: TaskId, out: set<TaskId>, t: TaskId, n: nat)
    requires Exploring(tasks, root, out, {}) && DependsIn(tasks, t, root, n)
    ensures t in out
    decreases n
  {
    var u := if n == 0 then root else LinkTo(tasks, t, root, n);
    if n > 0 {
      ExploredAllDependents(tasks, root, out, u, n - 1);
    }
    assert u in tasks[t].prerequisites * (out + {root} - {});
  }

  /** Exactly the tasks that require `root`, directly or not. */
  method Dependents(tasks: Tasks, root: TaskId) returns (out: set<TaskId>)
    ensures forall t :: t in out <==> t in tasks && Depends(tasks, t, root)
  {
    out := {};
    var frontier := {root};
    while frontier != {}
      invariant Exploring(tasks, root, out, frontier)
      decreases |tasks.Keys - out|, |frontier|
    {
      ExploringNext(tasks, root, out, frontier);
      var next := NextDependents(tasks, out, frontier);
      FewerLeft(tasks.Keys, out, next);
      frontier := next;
      out := out + frontier;
    }
    forall t | Depends(tasks, t, root) ensures t in out {
      var n: nat :| DependsIn(tasks, t, root, n);
      ExploredAllDependents(tasks, root, out, t, n);
    }
  }

  lemma FewerLeft(all: set<TaskId>, out: set<TaskId>, next: set<TaskId>)
    requires next <= all && next !! out
    ensures |all - (out + next)| <= |all - out|
    ensures next != {} ==> |all - (out + next)| < |all - out|
  {
    Sets.Partition(all - out, all - (out + next), next);
  }
}
