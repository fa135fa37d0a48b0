/**
 What can be scheduled at all: collaborative tasks and everything that depends
 on them are sorted out, and the rest of a DAG is a DAG.
 */
module Eligibility {
  import opened Types
  import opened Dag
  import opened Sums

  // ------------------------------------------------------ what can be scheduled at all

  datatype Reason = CollaborativeUnsupported | BlockedBy(task: TaskId) | NoProgress

  ghost predicate DistinctIds(list: seq<Task>) {
    forall i, j | 0 <= i < j < |list| :: list[i].id != list[j].id
  }

  /** The tasks of the map are exactly those of the list. */
  ghost predicate ListsTasks(list: seq<Task>, tasks: Tasks) {
    Keyed(tasks) && forall task :: task in list <==> task.id in tasks && tasks[task.id] == task
  }

  lemma {:induction false} ByIdListsTasks(list: seq<Task>)
    requires DistinctIds(list)
    ensures ListsTasks(list, ById(list))
    decreases |list|
  {
    if list != [] {
      var init, last := list[..|list| - 1], list[|list| - 1];
      assert list == init + [last];
      ByIdListsTasks(init);
      forall t | t in ById(init) ensures t != last.id {
        assert ById(init)[t] in init;
      }
    }
  }

  lemma ListedTasksAreUnique(list: seq<Task>, tasks: Tasks, tasks': Tasks)
    requires ListsTasks(list, tasks) && ListsTasks(list, tasks')
    ensures tasks == tasks'
  {
    forall t ensures t in tasks <==> t in tasks' && tasks'[t] == tasks[t] {
      if t in tasks {
        assert tasks[t] in list;
      }
      if t in tasks' {
        assert tasks'[t] in list;
      }
    }
  }

  ghost function Collaborative(tasks: Tasks): set<TaskId> {
    set t | t in tasks && tasks[t].Collaborative()
  }

  /** Tasks that some collaborative task in `roots` blocks. */
  ghost function Blocked(tasks: Tasks, roots: set<TaskId>): set<TaskId> {
    set t, c | t in tasks && c in roots && Depends(tasks, t, c) :: t
  }

  /** What this version can schedule: neither collaborative nor dependent on anything collaborative. */
  ghost function Schedulable(tasks: Tasks): set<TaskId> {
    tasks.Keys - Collaborative(tasks) - Blocked(tasks, Collaborative(tasks))
  }

  lemma {:induction false} SubDependsIn(tasks: Tasks, ids: set<TaskId>, t: TaskId, u: TaskId, n: nat)
    requires DependsIn(Restrict(tasks, ids), t, u, n)
    ensures DependsIn(tasks, t, u, n)
    decreases n
  {
    if n > 0 {
      var v := LinkTo(Restrict(tasks, ids), t, u, n);
      SubDependsIn(tasks, ids, v, u, n - 1);
    }
  }

  /** Whatever requires an unschedulable task is blocked as well. */
  lemma BlockedPropagates(tasks: Tasks, t: TaskId, p: TaskId)
    requires t in tasks && p in tasks[t].prerequisites
    requires p in Collaborative(tasks) + Blocked(tasks, Collaborative(tasks))
    ensures t in Blocked(tasks, Collaborative(tasks))
  {
    PrerequisiteIsDepended(tasks, t, p);
    if p !in Collaborative(tasks) {
      var c :| c in Collaborative(tasks) && Depends(tasks, p, c);
      DependsIsTransitive(tasks, t, p, c);
    }
  }

  /** The schedulable tasks of a DAG form a DAG. */
  lemma SchedulableIsDag(tasks: Tasks)
    requires IsDag(tasks)
    ensures IsDag(Restrict(tasks, Schedulable(tasks)))
  {
    var ids := Schedulable(tasks);
    var sub := Restrict(tasks, ids);
    forall t, p | t in sub && p in sub[t].prerequisites ensures p in sub {
      if p !in ids {
        BlockedPropagates(tasks, t, p);
      }
    }
    forall t ensures !Depends(sub, t, t) {
      if n: nat :| DependsIn(sub, t, t, n) {
        SubDependsIn(tasks, ids, t, t, n);
        assert Depends(tasks, t, t);
      }
    }
  }

  /** The tasks of the list without these ids. */
  function Without(list: seq<Task>, ids: set<TaskId>): seq<Task> {
    if list == [] then []
    else
      var rest, last := Without(list[..|list| - 1], ids), list[|list| - 1];
      if last.id in ids then rest else rest + [last]
  }

  lemma {:induction false} WithoutLists(list: seq<Task>, ids: set<TaskId>)
    ensures forall task :: task in Without(list, ids) <==> task in list && task.id !in ids
    ensures DistinctIds(list) ==> DistinctIds(Without(list, ids))
    decreases |list|
  {
    if list != [] {
      var init, last := list[..|list| - 1], list[|list| - 1];
      assert list == init + [last];
      WithoutLists(init, ids);
      if DistinctIds(list) {
        forall i | 0 <= i < |Without(init, ids)| ensures Without(init, ids)[i].id != last.id {
          assert Without(init, ids)[i] in init;
        }
      }
    }
  }

  /** Split off the collaborative tasks. */
  method SplitCollaborative(list: seq<Task>) returns (unallocated: map<TaskId, Reason>, supported: seq<Task>)
    requires DistinctIds(list)
    ensures unallocated.Keys == Collaborative(ById(list))
    ensures forall t | t in unallocated :: unallocated[t] == CollaborativeUnsupported
    ensures DistinctIds(supported) && forall task :: task in supported <==> task in list && !task.Collaborative()
  {
    unallocated, supported := map[], [];
    for i := 0 to |list|
      invariant forall t :: t in unallocated <==> exists j :: 0 <= j < i && list[j].id == t && list[j].Collaborative()
      invariant forall t | t in unallocated :: unallocated[t] == CollaborativeUnsupported
      invariant DistinctIds(supported)
      invariant forall task :: task in supported <==> task in list[..i] && !task.Collaborative()
    {
      var task := list[i];
      assert list[..i + 1] == list[..i] + [task];
      if task.Collaborative() {
        unallocated := unallocated[task.id := CollaborativeUnsupported];
      } else {
        forall k | 0 <= k < |supported| ensures supported[k].id != task.id {
          assert supported[k] in list[..i];
        }
        supported := supported + [task];
      }
    }
    assert list[..|list|] == list;
    ByIdListsTasks(list);
    CollaborativeIds(list, unallocated.Keys);
  }

  lemma CollaborativeIds(list: seq<Task>, ids: set<TaskId>)
    requires DistinctIds(list) && ListsTasks(list, ById(list))
    requires forall t :: t in ids <==> exists j :: 0 <= j < |list| && list[j].id == t && list[j].Collaborative()
    ensures ids == Collaborative(ById(list))
  {
    forall t ensures t in ids <==> t in Collaborative(ById(list)) {
      if t in ids {
        var j :| 0 <= j < |list| && list[j].id == t && list[j].Collaborative();
        assert list[j] in list;
      }
      if t in Collaborative(ById(list)) {
        assert ById(list)[t] in list;
        var j :| 0 <= j < |list| && list[j] == ById(list)[t];
      }
    }
  }

  /** Collaborative tasks, and what those in `roots` block, are not allocated. */
  ghost predicate MarksBlocked(tasks: Tasks, roots: set<TaskId>, unallocated: map<TaskId, Reason>) {
    && unallocated.Keys == Collaborative(tasks) + Blocked(tasks, roots)
    && forall t | t in unallocated :: JustReason(tasks, t, unallocated[t])
  }

  ghost predicate JustReason(tasks: Tasks, t: TaskId, reason: Reason) {
    match reason
    case CollaborativeUnsupported => t in Collaborative(tasks)
    case BlockedBy(c) => c in Collaborative(tasks) && Depends(tasks, t, c)
    case NoProgress => false
  }

  /** Python's `setdefault` over a set: earlier reasons stay. */
  function SetDefaults(unallocated: map<TaskId, Reason>, ids: set<TaskId>, reason: Reason): map<TaskId, Reason> {
    map t | t in unallocated.Keys + ids :: if t in unallocated then unallocated[t] else reason
  }

  lemma MarkNext(tasks: Tasks, roots: set<TaskId>, unallocated: map<TaskId, Reason>, c: TaskId, dependents: set<TaskId>)
    requires MarksBlocked(tasks, roots, unallocated) && c in Collaborative(tasks)
    requires forall t :: t in dependents <==> t in tasks && Depends(tasks, t, c)
    ensures MarksBlocked(tasks, roots + {c}, SetDefaults(unallocated, dependents, BlockedBy(c)))
  {
    assert Blocked(tasks, roots + {c}) == Blocked(tasks, roots) + dependents;
  }

  /**
   What has been marked after the tasks before position i; the dependencies were checked
   if any of them is collaborative.
   */
  ghost predicate Marked(list: seq<Task>, i: nat, roots: set<TaskId>, marked: map<TaskId, Reason>) {
    && MarksBlocked(ById(list), roots, marked)
    && roots <= Collaborative(ById(list))
    && (forall j | 0 <= j < i && j < |list| && list[j].Collaborative() :: list[j].id in roots)
    && (roots != {} ==> IsDag(ById(list)))
  }

  /** Mark what one collaborative task blocks, unless the dependencies are no DAG. */
  method MarkOne(list: seq<Task>, ghost i: nat, ghost roots: set<TaskId>, marked: map<TaskId, Reason>, task: Task)
    returns (ok: bool, marked': map<TaskId, Reason>)
    requires i < |list| && list[i] == task && task.id in Collaborative(ById(list)) && Marked(list, i, roots, marked)
    ensures ok <==> IsDag(ById(list))
    ensures ok ==> Marked(list, i + 1, roots + {task.id}, marked')
  {
    var dag := MakeDag(list);
    if !dag.Valid? {
      return false, marked;
    }
    var dependents := Dependents(dag.tasks, task.id);
    MarkNext(ById(list), roots, marked, task.id, dependents);
    return true, SetDefaults(marked, dependents, BlockedBy(task.id));
  }

  lemma NothingMarked(list: seq<Task>, unallocated: map<TaskId, Reason>)
    requires unallocated.Keys == Collaborative(ById(list))
    requires forall t | t in unallocated :: unallocated[t] == CollaborativeUnsupported
    ensures Marked(list, 0, {}, unallocated)
  {
    assert Blocked(ById(list), {}) == {};
  }

  lemma ListedCollaborative(list: seq<Task>, i: nat)
    requires DistinctIds(list) && i < |list| && list[i].Collaborative()
    ensures list[i].id in Collaborative(ById(list))
  {
    ByIdListsTasks(list);
    assert list[i] in list;
  }

  /** Add what each collaborative task blocks; the dependencies are checked on the way. */
  method MarkAllBlocked(list: seq<Task>, unallocated: map<TaskId, Reason>)
    returns (ok: bool, marked: map<TaskId, Reason>)
    requires DistinctIds(list) && unallocated.Keys == Collaborative(ById(list))
    requires forall t | t in unallocated :: unallocated[t] == CollaborativeUnsupported
    ensures ok ==> MarksBlocked(ById(list), Collaborative(ById(list)), marked)
    ensures ok <==> IsDag(ById(list)) || Collaborative(ById(list)) == {}
  {
    marked := unallocated;
    ghost var roots: set<TaskId> := {};
    NothingMarked(list, unallocated);
    for i := 0 to |list|
      invariant Marked(list, i, roots, marked)
    {
      if list[i].Collaborative() {
        ListedCollaborative(list, i);
        ok, marked := MarkOne(list, i, roots, marked, list[i]);
        if !ok {
          return;
        }
        roots := roots + {list[i].id};
      }
    }
    ByIdListsTasks(list);
    AllRootsSeen(list, roots);
    return true, marked;
  }

  lemma AllRootsSeen(list: seq<Task>, roots: set<TaskId>)
    requires ListsTasks(list, ById(list)) && roots <= Collaborative(ById(list))
    requires forall j | 0 <= j < |list| && list[j].Collaborative() :: list[j].id in roots
    ensures roots == Collaborative(ById(list))
  {
    forall t | t in Collaborative(ById(list)) ensures t in roots {
      assert ById(list)[t] in list;
    }
  }
}
