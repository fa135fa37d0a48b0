/**
 The critical path of a task graph, and the makespan lower bound: no feasible
 schedule finishes before it.
 */
module CriticalPath {
  import opened Types
  import opened Dag
  import opened Sums
  import Sets

  /** Python's `max(values, default=0.0)`. */
  ghost function Latest<K>(values: map<K, real>): real {
    if values == map[] then 0.0
    else
      var k :| k in values;
      var rest := values - {k};
      if rest == map[] || values[k] > Latest(rest) then values[k] else Latest(rest)
  }

  /** `x` is the largest value, or 0 when there is none. */
  ghost predicate IsLatest<K>(values: map<K, real>, x: real) {
    && (values == map[] ==> x == 0.0)
    && (forall k | k in values :: values[k] <= x)
    && (values != map[] ==> exists k | k in values :: values[k] == x)
  }

  lemma {:induction false} LatestIsLatest<K>(values: map<K, real>)
    ensures IsLatest(values, Latest(values))
    decreases |values|
  {
    if values != map[] {
      var k :| k in values && Latest(values)
          == if values - {k} == map[] || values[k] > Latest(values - {k}) then values[k] else Latest(values - {k});
      var rest := values - {k};
      LatestIsLatest(rest);
      assert forall j | j in values :: j == k || (j in rest && rest[j] == values[j]);
    }
  }

  lemma LatestIsUnique<K>(values: map<K, real>, x: real)
    requires IsLatest(values, x)
    ensures x == Latest(values)
  {
    LatestIsLatest(values);
  }

  lemma PrerequisitesHaveFewerAncestors(tasks: Tasks, t: TaskId)
    requires IsDag(tasks) && t in tasks
    ensures forall p | p in tasks[t].prerequisites :: p in tasks && |Ancestors(tasks, p)| < |Ancestors(tasks, t)|
  {
    forall p | p in tasks[t].prerequisites ensures p in tasks && |Ancestors(tasks, p)| < |Ancestors(tasks, t)| {
      PrerequisiteHasFewerAncestors(tasks, t, p);
    }
  }

  /** Earliest finish of a task when robots are plentiful and travel takes no time. */
  ghost function Finish(tasks: Tasks, t: TaskId): real
    requires IsDag(tasks) && t in tasks
    decreases |Ancestors(tasks, t)|
  {
    PrerequisitesHaveFewerAncestors(tasks, t);
    Latest(map p | p in tasks[t].prerequisites :: Finish(tasks, p)) + tasks[t].duration
  }

  ghost function Finishes(tasks: Tasks, ids: set<TaskId>): map<TaskId, real>
    requires IsDag(tasks) && ids <= tasks.Keys
  {
    map t | t in ids :: Finish(tasks, t)
  }

  ghost function CriticalLength(tasks: Tasks): real
    requires IsDag(tasks)
  {
    Latest(Finishes(tasks, tasks.Keys))
  }

  lemma FinishUnfolds(tasks: Tasks, t: TaskId)
    requires IsDag(tasks) && t in tasks
    ensures tasks[t].prerequisites <= tasks.Keys
    ensures Finish(tasks, t) == Latest(Finishes(tasks, tasks[t].prerequisites)) + tasks[t].duration
  {
    assert Finishes(tasks, tasks[t].prerequisites) == map p | p in tasks[t].prerequisites :: Finish(tasks, p);
  }

  // ------------------------------------------------------ the longest chain

  /** Tasks in order of dependency: each requires the one before it. */
  ghost predicate IsChain(tasks: Tasks, chain: seq<TaskId>) {
    && |chain| > 0
    && (forall i | 0 <= i < |chain| :: chain[i] in tasks)
    && (forall i | 0 < i < |chain| :: chain[i - 1] in tasks[chain[i]].prerequisites)
  }

  ghost function ChainLength(tasks: Tasks, chain: seq<TaskId>): real
    requires forall i | 0 <= i < |chain| :: chain[i] in tasks
  {
    if chain == [] then 0.0
    else ChainLength(tasks, chain[..|chain| - 1]) + tasks[chain[|chain| - 1]].duration
  }

  ghost predicate NonNegativeDurations(tasks: Tasks) {
    forall t | t in tasks :: tasks[t].duration >= 0.0
  }

  lemma {:induction false} FinishIsNonNegative(tasks: Tasks, t: TaskId)
    requires IsDag(tasks) && t in tasks && NonNegativeDurations(tasks)
    ensures Finish(tasks, t) >= tasks[t].duration
    decreases |Ancestors(tasks, t)|
  {
    FinishUnfolds(tasks, t);
    var before := Finishes(tasks, tasks[t].prerequisites);
    LatestIsLatest(before);
    if before != map[] {
      var p := Sets.Pick(before.Keys);
      PrerequisiteHasFewerAncestors(tasks, t, p);
      FinishIsNonNegative(tasks, p);
    }
  }

  lemma FinishAfterPrerequisite(tasks: Tasks, t: TaskId, p: TaskId)
    requires IsDag(tasks) && t in tasks && p in tasks[t].prerequisites
    ensures p in tasks && Finish(tasks, t) >= Finish(tasks, p) + tasks[t].duration
  {
    FinishUnfolds(tasks, t);
    LatestIsLatest(Finishes(tasks, tasks[t].prerequisites));
    assert p in Finishes(tasks, tasks[t].prerequisites);
  }

  /** No chain is longer than the finish of its last task. */
  lemma {:induction false} ChainsFitFinish(tasks: Tasks, chain: seq<TaskId>)
    requires IsDag(tasks) && NonNegativeDurations(tasks) && IsChain(tasks, chain)
    ensures ChainLength(tasks, chain) <= Finish(tasks, chain[|chain| - 1])
    decreases |chain|
  {
    var init, t := chain[..|chain| - 1], chain[|chain| - 1];
    if init == [] {
      FinishIsNonNegative(tasks, t);
    } else {
      ChainsFitFinish(tasks, init);
      FinishAfterPrerequisite(tasks, t, init[|init| - 1]);
    }
  }

  lemma ChainExtends(tasks: Tasks, init: seq<TaskId>, t: TaskId)
    requires t in tasks && IsChain(tasks, init) && init[|init| - 1] in tasks[t].prerequisites
    ensures IsChain(tasks, init + [t])
    ensures ChainLength(tasks, init + [t]) == ChainLength(tasks, init) + tasks[t].duration
  {
    assert (init + [t])[..|init|] == init;
  }

  /** Some chain ending in the task is exactly that long. */
  lemma {:induction false} FinishIsAttained(tasks: Tasks, t: TaskId) returns (chain: seq<TaskId>)
    requires IsDag(tasks) && t in tasks
    ensures IsChain(tasks, chain) && chain[|chain| - 1] == t && ChainLength(tasks, chain) == Finish(tasks, t)
    decreases |Ancestors(tasks, t)|
  {
    FinishUnfolds(tasks, t);
    var before := Finishes(tasks, tasks[t].prerequisites);
    LatestIsLatest(before);
    if before == map[] {
      chain := [t];
    } else {
      var p :| p in before && before[p] == Latest(before);
      PrerequisiteHasFewerAncestors(tasks, t, p);
      var init := FinishIsAttained(tasks, p);
      ChainExtends(tasks, init, t);
      chain := init + [t];
    }
  }

  /** The critical length is the total duration of a longest dependency chain. */
  lemma CriticalLengthIsLongestChain(tasks: Tasks)
    requires IsDag(tasks) && NonNegativeDurations(tasks)
    ensures forall chain | IsChain(tasks, chain) :: ChainLength(tasks, chain) <= CriticalLength(tasks)
    ensures tasks != map[] ==> exists chain | IsChain(tasks, chain) ::
              ChainLength(tasks, chain) == CriticalLength(tasks)
  {
    var finishes := Finishes(tasks, tasks.Keys);
    LatestIsLatest(finishes);
    forall chain | IsChain(tasks, chain) ensures ChainLength(tasks, chain) <= CriticalLength(tasks) {
      ChainsFitFinish(tasks, chain);
      assert chain[|chain| - 1] in finishes;
    }
    if tasks != map[] {
      var t := Sets.Pick(tasks.Keys);
      assert t in finishes;
      var last :| last in finishes && finishes[last] == Latest(finishes);
      var chain := FinishIsAttained(tasks, last);
    }
  }

  // ------------------------------------------------------ the memoised recursion

  ghost predicate IsMemo(tasks: Tasks, memo: map<TaskId, real>)
    requires IsDag(tasks)
  {
    forall t | t in memo :: t in tasks && memo[t] == Finish(tasks, t)
  }

  lemma LatestOver(tasks: Tasks, ids: set<TaskId>, x: real)
    requires IsDag(tasks) && ids <= tasks.Keys && IsLatest(Finishes(tasks, ids), x)
    ensures x == Latest(Finishes(tasks, ids))
  {
    LatestIsUnique(Finishes(tasks, ids), x);
  }

  /** One more value seen: the running maximum. */
  lemma LatestNext(tasks: Tasks, done: set<TaskId>, x: real, t: TaskId, x': real)
    requires IsDag(tasks) && done <= tasks.Keys && t in tasks && t !in done
    requires IsLatest(Finishes(tasks, done), x)
    requires x' == if done == {} || Finish(tasks, t) > x then Finish(tasks, t) else x
    ensures IsLatest(Finishes(tasks, done + {t}), x')
  {
    var values, values' := Finishes(tasks, done), Finishes(tasks, done + {t});
    assert t in values' && values'[t] == Finish(tasks, t);
    if done != {} {
      var k := Sets.Pick(done);
      assert k in values;
      var j :| j in values && values[j] == x;
      assert values'[j] == x;
    }
  }

  /** The finish of one task, computing and remembering whatever is missing. */
  method FinishOf(tasks: Tasks, t: TaskId, memo: map<TaskId, real>) returns (memo': map<TaskId, real>, f: real)
    requires IsDag(tasks) && t in tasks && IsMemo(tasks, memo)
    ensures IsMemo(tasks, memo') && f == Finish(tasks, t)
    decreases |Ancestors(tasks, t)|, 2
  {
    memo' := memo;
    if t !in memo' {
      PrerequisitesHaveFewerAncestors(tasks, t);
      FinishUnfolds(tasks, t);
      var start;
      memo', start := LatestOf(tasks, tasks[t].prerequisites, memo', |Ancestors(tasks, t)|);
      memo' := memo'[t := start + tasks[t].duration];
    }
    f := memo'[t];
  }

  /** Take one more task into the running maximum. */
  method AddFinish(tasks: Tasks, ghost done: set<TaskId>, first: bool, latest: real, t: TaskId, memo: map<TaskId, real>,
                   ghost bound: nat)
    returns (memo': map<TaskId, real>, latest': real)
    requires IsDag(tasks) && IsMemo(tasks, memo) && done <= tasks.Keys && t in tasks && t !in done
    requires (first <==> done == {}) && IsLatest(Finishes(tasks, done), latest)
    requires |Ancestors(tasks, t)| < bound
    ensures IsMemo(tasks, memo') && IsLatest(Finishes(tasks, done + {t}), latest')
    decreases bound, 0
  {
    var f;
    memo', f := FinishOf(tasks, t, memo);
    latest' := if first || f > latest then f else latest;
    LatestNext(tasks, done, latest, t, latest');
  }

  /** The latest finish among these tasks, 0 if there are none. */
  method LatestOf(tasks: Tasks, ids: set<TaskId>, memo: map<TaskId, real>, ghost bound: nat)
    returns (memo': map<TaskId, real>, latest: real)
    requires IsDag(tasks) && IsMemo(tasks, memo) && ids <= tasks.Keys
    requires forall p | p in ids :: |Ancestors(tasks, p)| < bound
    ensures IsMemo(tasks, memo') && latest == Latest(Finishes(tasks, ids))
    decreases bound, 1
  {
    memo', latest := memo, 0.0;
    var todo, first := ids, true;
    ghost var done: set<TaskId> := {};
    while todo != {}
      invariant todo !! done && todo + done == ids && IsMemo(tasks, memo') && (first <==> done == {})
      invariant IsLatest(Finishes(tasks, done), latest)
    {
      var p :| p in todo;
      memo', latest := AddFinish(tasks, done, first, latest, p, memo', bound);
      todo, first, done := todo - {p}, false, done + {p};
    }
    LatestOver(tasks, ids, latest);
  }

  /** Length of the longest dependency chain. */
  method CriticalPathLength(tasks: Tasks) returns (length: real)
    requires IsDag(tasks)
    ensures length == CriticalLength(tasks)
  {
    forall t | t in tasks ensures |Ancestors(tasks, t)| <= |tasks.Keys| {
      Sets.SubsetCardinality(Ancestors(tasks, t), tasks.Keys);
    }
    var memo;
    memo, length := LatestOf(tasks, tasks.Keys, map[], |tasks.Keys| + 1);
  }

  // ------------------------------------------------------ the makespan lower bound

  ghost function Durations(tasks: Tasks): map<TaskId, real> {
    map t | t in tasks :: tasks[t].duration
  }

  /** The largest of mean load per robot, longest task and critical path; 0 without tasks. */
  ghost function LowerBound(tasks: Tasks, robots: nat): real
    requires IsDag(tasks) && robots > 0
  {
    if tasks == map[] then 0.0
    else
      var load, longest := Sum(Durations(tasks)) / robots as real, Latest(Durations(tasks));
      var most := if load > longest then load else longest;
      if most > CriticalLength(tasks) then most else CriticalLength(tasks)
  }

  /**
   What a bound on the makespan must be: no less than the mean load per robot, any
   task, any dependency chain, and equal to one of them.
   */
  ghost predicate IsLargestOfThree(tasks: Tasks, robots: nat, bound: real) {
    var total := Sum<TaskId>(map t: TaskId | t in tasks :: tasks[t].duration);
    && (tasks == map[] ==> bound == 0.0)
    && total <= bound * robots as real
    && (forall t | t in tasks :: tasks[t].duration <= bound)
    && (forall chain | IsChain(tasks, chain) :: ChainLength(tasks, chain) <= bound)
    && (tasks != map[] ==>
          || total == bound * robots as real
          || (exists t :: t in tasks && tasks[t].duration == bound)
          || (exists chain :: IsChain(tasks, chain) && ChainLength(tasks, chain) == bound))
  }

  lemma Share(total: real, robots: nat, bound: real)
    requires robots > 0
    ensures total / robots as real <= bound <==> total <= bound * robots as real
    ensures total / robots as real == bound ==> total == bound * robots as real
  {
    var share := total / robots as real;
    assert share * robots as real == total;
  }

  /** `critical` is the length of a longest chain. */
  ghost predicate IsLongestChain(tasks: Tasks, critical: real) {
    && (forall chain | IsChain(tasks, chain) :: ChainLength(tasks, chain) <= critical)
    && exists chain :: IsChain(tasks, chain) && ChainLength(tasks, chain) == critical
  }

  lemma LargestOfThree(tasks: Tasks, robots: nat, total: real, longest: real, critical: real, bound: real)
    requires robots > 0 && tasks != map[] && total == Sum<TaskId>(map t: TaskId | t in tasks :: tasks[t].duration)
    requires IsLatest(Durations(tasks), longest) && IsLongestChain(tasks, critical)
    requires bound >= total / robots as real && bound >= longest && bound >= critical
    requires bound == total / robots as real || bound == longest || bound == critical
    ensures IsLargestOfThree(tasks, robots, bound)
  {
    var durations := Durations(tasks);
    Share(total, robots, bound);
    forall t | t in tasks ensures tasks[t].duration <= bound {
      assert durations[t] <= longest;
    }
    if bound == longest {
      var t :| t in durations && durations[t] == longest;
      assert tasks[t].duration == bound;
    }
  }

  lemma NothingToBound(robots: nat)
    requires robots > 0
    ensures IsLargestOfThree(map[], robots, 0.0)
  {
    var none: Tasks := map[];
    assert (map t | t in none :: none[t].duration) == map[];
    forall chain ensures !IsChain(none, chain) {
      assert |chain| > 0 ==> chain[0] !in none;
    }
  }

  lemma LowerBoundIsLargest(tasks: Tasks, robots: nat)
    requires IsDag(tasks) && NonNegativeDurations(tasks) && robots > 0
    ensures IsLargestOfThree(tasks, robots, LowerBound(tasks, robots))
  {
    if tasks == map[] {
      NothingToBound(robots);
    } else {
      DurationsHaveLatest(tasks);
      CriticalIsLongest(tasks);
      var bound := LowerBound(tasks, robots);
      LargestOfThree(tasks, robots, Sum(Durations(tasks)), Latest(Durations(tasks)), CriticalLength(tasks), bound);
    }
  }

  lemma DurationsHaveLatest(tasks: Tasks)
    ensures IsLatest(Durations(tasks), Latest(Durations(tasks)))
    ensures Sum(Durations(tasks)) == Sum<TaskId>(map t: TaskId | t in tasks :: tasks[t].duration)
  {
    LatestIsLatest(Durations(tasks));
    assert Durations(tasks) == map t: TaskId | t in tasks :: tasks[t].duration;
  }

  lemma CriticalIsLongest(tasks: Tasks)
    requires IsDag(tasks) && NonNegativeDurations(tasks) && tasks != map[]
    ensures IsLongestChain(tasks, CriticalLength(tasks))
  {
    CriticalLengthIsLongestChain(tasks);
  }

  /** When and where a task runs. */
  datatype Slot = Slot(robot: AgentId, start: real, finish: real)

  type Schedule = map<TaskId, Slot>

  ghost predicate Disjoint(a: Slot, b: Slot) {
    a.finish <= b.start || b.finish <= a.start
  }

  /** No robot runs two tasks at a time. */
  ghost predicate NoOverlap(schedule: Schedule) {
    forall t, u {:trigger Disjoint(schedule[t], schedule[u])}
      | t in schedule && u in schedule && t != u && schedule[t].robot == schedule[u].robot ::
      Disjoint(schedule[t], schedule[u])
  }

  /** Every task has its time, after its prerequisites, on a robot that does nothing else meanwhile. */
  ghost predicate Feasible(tasks: Tasks, robots: set<AgentId>, schedule: Schedule) {
    && schedule.Keys == tasks.Keys
    && (forall t | t in tasks :: FitsSlot(tasks[t], robots, schedule[t]))
    && (forall t, p | t in tasks && p in tasks[t].prerequisites && p in schedule ::
         schedule[p].finish <= schedule[t].start)
    && NoOverlap(schedule)
  }

  ghost predicate FitsSlot(task: Task, robots: set<AgentId>, slot: Slot) {
    slot.robot in robots && slot.start >= 0.0 && slot.finish >= slot.start + task.duration
  }

  ghost predicate EndsBy(schedule: Schedule, makespan: real) {
    makespan >= 0.0 && forall t | t in schedule :: schedule[t].finish <= makespan
  }

  /** The critical path fits: no task finishes before its dependency chains allow. */
  lemma {:induction false} FinishIsEarliest(tasks: Tasks, robots: set<AgentId>, schedule: Schedule, t: TaskId)
    requires IsDag(tasks) && t in tasks && Feasible(tasks, robots, schedule)
    ensures Finish(tasks, t) <= schedule[t].finish
    decreases |Ancestors(tasks, t)|
  {
    FinishUnfolds(tasks, t);
    var before := Finishes(tasks, tasks[t].prerequisites);
    LatestIsLatest(before);
    assert FitsSlot(tasks[t], robots, schedule[t]);
    if before != map[] {
      var p :| p in before && before[p] == Latest(before);
      PrerequisiteHasFewerAncestors(tasks, t, p);
      FinishIsEarliest(tasks, robots, schedule, p);
    }
  }

  lemma CriticalPathFits(tasks: Tasks, robots: set<AgentId>, schedule: Schedule, makespan: real)
    requires IsDag(tasks) && Feasible(tasks, robots, schedule) && EndsBy(schedule, makespan)
    ensures CriticalLength(tasks) <= makespan
  {
    var finishes := Finishes(tasks, tasks.Keys);
    LatestIsLatest(finishes);
    if finishes != map[] {
      var t :| t in finishes && finishes[t] == Latest(finishes);
      FinishIsEarliest(tasks, robots, schedule, t);
    }
  }

  lemma LongestTaskFits(tasks: Tasks, robots: set<AgentId>, schedule: Schedule, makespan: real)
    requires Feasible(tasks, robots, schedule) && EndsBy(schedule, makespan) && tasks != map[]
    ensures Latest(Durations(tasks)) <= makespan
  {
    LatestIsLatest(Durations(tasks));
    var t := Sets.Pick(tasks.Keys);
    assert t in Durations(tasks);
    var longest :| longest in Durations(tasks) && Durations(tasks)[longest] == Latest(Durations(tasks));
    assert FitsSlot(tasks[longest], robots, schedule[longest]);
  }

  // ------------------------------------------------------ load

  /** The slots of one robot, each long enough for its duration. */
  ghost predicate OneRobot(schedule: Schedule, lengths: map<TaskId, real>) {
    && schedule.Keys == lengths.Keys
    && (forall t | t in schedule ::
         0.0 <= lengths[t] <= schedule[t].finish - schedule[t].start && schedule[t].start >= 0.0)
    && (forall t, u | t in schedule && u in schedule && t != u :: Disjoint(schedule[t], schedule[u]))
  }

  /** `a` starts after `b`, or at the same time and finishes no earlier. */
  ghost predicate Later(a: Slot, b: Slot) {
    a.start > b.start || (a.start == b.start && a.finish >= b.finish)
  }

  lemma {:induction false} LastSlot(schedule: Schedule, ids: set<TaskId>) returns (last: TaskId)
    requires ids != {} && ids <= schedule.Keys
    ensures last in ids && forall t | t in ids :: Later(schedule[last], schedule[t])
    decreases |ids|
  {
    last := Sets.Pick(ids);
    var rest := ids - {last};
    assert forall t | t in ids :: t == last || t in rest;
    if rest != {} {
      var other := LastSlot(schedule, rest);
      if !Later(schedule[last], schedule[other]) {
        last := other;
      }
      assert forall t | t in ids :: t in rest || Later(schedule[last], schedule[t]);
    }
  }

  /** Tasks that run one after the other until `end` take no longer than that. */
  lemma {:induction false} LoadOfOne(schedule: Schedule, lengths: map<TaskId, real>, end: real)
    requires OneRobot(schedule, lengths) && EndsBy(schedule, end)
    ensures Sum(lengths) <= end
    decreases |lengths|
  {
    if lengths.Keys == {} {
      assert lengths == map[];
    } else {
      var t := LastSlot(schedule, schedule.Keys);
      SumRemove(lengths, t);
      assert (lengths - {t}).Keys == lengths.Keys - {t};
      forall u | u in schedule - {t} ensures schedule[u].finish <= schedule[t].start {
        assert Later(schedule[t], schedule[u]) && Disjoint(schedule[t], schedule[u]);
      }
      LoadOfOne(schedule - {t}, lengths - {t}, schedule[t].start);
    }
  }

  /** The tasks of one robot. */
  ghost function Of(schedule: Schedule, robot: AgentId): set<TaskId> {
    set t | t in schedule && schedule[t].robot == robot
  }

  /** The tasks of several robots take no longer than so many times the makespan. */
  lemma {:induction false} LoadOfAll(schedule: Schedule, lengths: map<TaskId, real>, robots: set<AgentId>, end: real)
    requires schedule.Keys == lengths.Keys && NoOverlap(schedule) && EndsBy(schedule, end)
    requires forall t | t in schedule ::
               schedule[t].robot in robots && 0.0 <= lengths[t] <= schedule[t].finish - schedule[t].start
                 && schedule[t].start >= 0.0
    ensures Sum(lengths) <= Times(|robots|, end)
    decreases |robots|
  {
    if robots == {} {
      assert lengths == map[] by {
        assert forall t :: t !in schedule;
      }
    } else {
      var r := Sets.Pick(robots);
      var mine := Of(schedule, r);
      SumSplit(lengths, mine);
      LoadOfOne(Restrict(schedule, mine), Restrict(lengths, mine), end);
      LoadOfAll(schedule - mine, lengths - mine, robots - {r}, end);
    }
  }

  lemma MeanLoadFits(total: real, robots: nat, makespan: real)
    requires robots > 0 && total <= Times(robots, makespan)
    ensures total / robots as real <= makespan
  {
    TimesIsProduct(robots, makespan);
  }

  /** No set of robots can work off more than so many times the makespan. */
  lemma LoadFits(tasks: Tasks, robots: set<AgentId>, schedule: Schedule, makespan: real)
    requires NonNegativeDurations(tasks) && Feasible(tasks, robots, schedule) && EndsBy(schedule, makespan)
    ensures Sum(Durations(tasks)) <= Times(|robots|, makespan)
  {
    forall t | t in schedule
      ensures schedule[t].robot in robots && schedule[t].start >= 0.0
      ensures 0.0 <= Durations(tasks)[t] <= schedule[t].finish - schedule[t].start
    {
      assert FitsSlot(tasks[t], robots, schedule[t]);
    }
    LoadOfAll(schedule, Durations(tasks), robots, makespan);
  }

  /** Soundness: no feasible schedule on that many robots ends before the lower bound. */
  lemma LowerBoundIsSound(tasks: Tasks, robots: set<AgentId>, schedule: Schedule, makespan: real)
    requires IsDag(tasks) && NonNegativeDurations(tasks) && |robots| > 0
    requires Feasible(tasks, robots, schedule) && EndsBy(schedule, makespan)
    ensures LowerBound(tasks, |robots|) <= makespan
  {
    if tasks != map[] {
      CriticalPathFits(tasks, robots, schedule, makespan);
      LongestTaskFits(tasks, robots, schedule, makespan);
      LoadFits(tasks, robots, schedule, makespan);
      MeanLoadFits(Sum(Durations(tasks)), |robots|, makespan);
    }
  }

  // ------------------------------------------------------ the bound is met

  /** A robot of its own for each task. */
  lemma {:induction false} OwnRobots(ids: set<TaskId>, robots: set<AgentId>) returns (f: map<TaskId, AgentId>)
    requires |ids| <= |robots|
    ensures f.Keys == ids && Sets.Injective(f) && f.Values <= robots
    decreases |ids|
  {
    if ids == {} {
      f := map[];
    } else {
      var t := Sets.Pick(ids);
      var r := Sets.Pick(robots);
      f := OwnRobots(ids - {t}, robots - {r});
      forall u | u in f ensures f[u] in f.Values {
      }
      f := f[t := r];
    }
  }

  /** Each task starts as soon as its prerequisites are done, on a robot of its own. */
  ghost function Eager(tasks: Tasks, f: map<TaskId, AgentId>): Schedule
    requires IsDag(tasks) && f.Keys == tasks.Keys
  {
    map t | t in tasks :: Slot(f[t], Finish(tasks, t) - tasks[t].duration, Finish(tasks, t))
  }

  lemma EagerSlot(tasks: Tasks, robots: set<AgentId>, f: map<TaskId, AgentId>, t: TaskId)
    requires IsDag(tasks) && NonNegativeDurations(tasks) && f.Keys == tasks.Keys && f.Values <= robots && t in tasks
    ensures FitsSlot(tasks[t], robots, Eager(tasks, f)[t]) && Eager(tasks, f)[t].finish <= CriticalLength(tasks)
  {
    assert f[t] in f.Values;
    FinishIsNonNegative(tasks, t);
    LatestIsLatest(Finishes(tasks, tasks.Keys));
    assert t in Finishes(tasks, tasks.Keys);
  }

  /** With a robot for every task the bound is met. */
  lemma EnoughRobotsMeetBound(tasks: Tasks, robots: set<AgentId>) returns (schedule: Schedule)
    requires IsDag(tasks) && NonNegativeDurations(tasks) && 0 < |robots| && |tasks.Keys| <= |robots|
    ensures Feasible(tasks, robots, schedule) && EndsBy(schedule, LowerBound(tasks, |robots|))
  {
    var f := OwnRobots(tasks.Keys, robots);
    schedule := Eager(tasks, f);
    forall t | t in tasks
      ensures FitsSlot(tasks[t], robots, schedule[t]) && schedule[t].finish <= CriticalLength(tasks)
    {
      EagerSlot(tasks, robots, f, t);
    }
    forall t, p | t in tasks && p in tasks[t].prerequisites && p in schedule
      ensures schedule[p].finish <= schedule[t].start
    {
      FinishAfterPrerequisite(tasks, t, p);
    }
    BoundIsNonNegative(tasks, |robots|);
  }

  lemma BoundIsNonNegative(tasks: Tasks, robots: nat)
    requires IsDag(tasks) && NonNegativeDurations(tasks) && robots > 0
    ensures LowerBound(tasks, robots) >= 0.0
    ensures tasks != map[] ==> LowerBound(tasks, robots) >= CriticalLength(tasks)
  {
    if tasks != map[] {
      var t := Sets.Pick(tasks.Keys);
      FinishIsNonNegative(tasks, t);
      LatestIsLatest(Finishes(tasks, tasks.Keys));
      assert t in Finishes(tasks, tasks.Keys);
    }
  }

  ghost function DurationsOf(tasks: Tasks, ids: set<TaskId>): map<TaskId, real>
    requires ids <= tasks.Keys
  {
    map t | t in ids :: tasks[t].duration
  }

  /** By `now` the robot has worked off these tasks, without a pause. */
  ghost predicate WorkedOff(tasks: Tasks, robot: AgentId, schedule: Schedule, now: real) {
    && schedule.Keys <= tasks.Keys && NoOverlap(schedule) && EndsBy(schedule, now)
    && (forall t | t in schedule :: FitsSlot(tasks[t], {robot}, schedule[t]))
    && (forall t, p | t in schedule && p in tasks[t].prerequisites ::
          p in schedule && schedule[p].finish <= schedule[t].start)
    && now == Sum(DurationsOf(tasks, schedule.Keys))
  }

  lemma OneMoreSlot(schedule: Schedule, t: TaskId, slot: Slot)
    requires NoOverlap(schedule) && EndsBy(schedule, slot.start) && t !in schedule && slot.finish >= slot.start
    ensures NoOverlap(schedule[t := slot]) && EndsBy(schedule[t := slot], slot.finish)
  {
    var after := schedule[t := slot];
    forall u, v | u in after && v in after && u != v && after[u].robot == after[v].robot
      ensures Disjoint(after[u], after[v])
    {
      assert u != t && v != t ==> Disjoint(schedule[u], schedule[v]);
    }
  }

  lemma SerialNext(tasks: Tasks, t: TaskId, robot: AgentId, schedule: Schedule, now: real)
    requires WorkedOff(tasks, robot, schedule, now) && t in tasks && t !in schedule && tasks[t].duration >= 0.0
    requires tasks[t].prerequisites <= schedule.Keys
    ensures WorkedOff(tasks, robot, schedule[t := Slot(robot, now, now + tasks[t].duration)], now + tasks[t].duration)
  {
    var slot := Slot(robot, now, now + tasks[t].duration);
    OneMoreSlot(schedule, t, slot);
    var durations := DurationsOf(tasks, schedule[t := slot].Keys);
    SumRemove(durations, t);
    assert durations - {t} == DurationsOf(tasks, schedule.Keys);
  }

  lemma NextInOrder(tasks: Tasks, order: seq<TaskId>, i: nat)
    requires IsTopologicalOrder(tasks, order) && i < |order|
    ensures order[i] in tasks && order[i] !in Elements(order[..i])
    ensures tasks[order[i]].prerequisites <= Elements(order[..i])
    ensures Elements(order[..i + 1]) == Elements(order[..i]) + {order[i]}
  {
    assert PrerequisitesBefore(tasks[order[i]], order, i);
    assert order[..i + 1] == order[..i] + [order[i]];
    Sets.ElementsMore(order[..i], order[i]);
  }

  lemma NothingWorkedOff(tasks: Tasks, robot: AgentId)
    ensures WorkedOff(tasks, robot, map[], 0.0)
  {
    assert DurationsOf(tasks, {}) == map[];
  }

  /** With one robot the bound is met too: it works off the tasks in topological order. */
  lemma OneRobotMeetsBound(tasks: Tasks, order: seq<TaskId>, robot: AgentId) returns (schedule: Schedule)
    requires IsDag(tasks) && NonNegativeDurations(tasks) && IsTopologicalOrder(tasks, order)
    ensures Feasible(tasks, {robot}, schedule) && EndsBy(schedule, LowerBound(tasks, 1))
  {
    var now := 0.0;
    schedule := map[];
    NothingWorkedOff(tasks, robot);
    for i := 0 to |order|
      invariant WorkedOff(tasks, robot, schedule, now) && schedule.Keys == Elements(order[..i])
    {
      var t := order[i];
      NextInOrder(tasks, order, i);
      SerialNext(tasks, t, robot, schedule, now);
      schedule, now := schedule[t := Slot(robot, now, now + tasks[t].duration)], now + tasks[t].duration;
    }
    assert order[..|order|] == order;
    assert schedule.Keys == tasks.Keys;
    AllWorkedOff(tasks, robot, schedule, now);
  }

  lemma AllWorkedOff(tasks: Tasks, robot: AgentId, schedule: Schedule, now: real)
    requires IsDag(tasks) && WorkedOff(tasks, robot, schedule, now) && schedule.Keys == tasks.Keys
    ensures Feasible(tasks, {robot}, schedule) && EndsBy(schedule, LowerBound(tasks, 1))
  {
    assert DurationsOf(tasks, tasks.Keys) == Durations(tasks);
    BoundIsTotal(tasks);
  }

  lemma BoundIsTotal(tasks: Tasks)
    requires IsDag(tasks)
    ensures LowerBound(tasks, 1) >= Sum(Durations(tasks))
  {
    if tasks == map[] {
      assert Durations(tasks) == map[];
    }
  }

  // ------------------------------------------------------ computing the bound

  lemma AddToSum(values: map<TaskId, real>, done: set<TaskId>, t: TaskId)
    requires t in values && t !in done
    ensures Sum(Restrict(values, done + {t})) == Sum(Restrict(values, done)) + values[t]
  {
    SumRemove(Restrict(values, done + {t}), t);
    assert Restrict(values, done + {t}) - {t} == Restrict(values, done);
  }

  method SumOf(values: map<TaskId, real>) returns (total: real)
    ensures total == Sum(values)
  {
    total := 0.0;
    var todo := values.Keys;
    assert Restrict(values, {}) == map[];
    while todo != {}
      invariant todo <= values.Keys && total == Sum(Restrict(values, values.Keys - todo))
    {
      var t :| t in todo;
      AddToSum(values, values.Keys - todo, t);
      assert values.Keys - todo + {t} == values.Keys - (todo - {t});
      total, todo := total + values[t], todo - {t};
    }
    assert Restrict(values, values.Keys - {}) == values;
  }

  method MaxOf(values: map<TaskId, real>) returns (max: real)
    requires values != map[]
    ensures max == Latest(values)
  {
    var first :| first in values;
    max := values[first];
    var todo := values.Keys - {first};
    while todo != {}
      invariant todo <= values.Keys
      invariant forall t | t in values.Keys - todo :: values[t] <= max
      invariant exists t | t in values :: values[t] == max
    {
      var t :| t in todo;
      if values[t] > max {
        max := values[t];
      }
      todo := todo - {t};
    }
    LatestIsUnique(values, max);
  }

  /** The bound that allocator results are reported against. */
  method MakespanLowerBound(tasks: Tasks, robots: nat) returns (bound: real)
    requires IsDag(tasks) && robots > 0
    ensures bound == LowerBound(tasks, robots)
    ensures NonNegativeDurations(tasks) ==> IsLargestOfThree(tasks, robots, bound)
  {
    if NonNegativeDurations(tasks) {
      LowerBoundIsLargest(tasks, robots);
    }
    var durations := map t | t in tasks :: tasks[t].duration;
    assert durations == Durations(tasks);
    if durations == map[] {
      assert tasks.Keys == durations.Keys;
      return 0.0;
    }
    var total := SumOf(durations);
    var longest := MaxOf(durations);
    var critical := CriticalPathLength(tasks);
    bound := total / robots as real;
    if longest > bound {
      bound := longest;
    }
    if critical > bound {
      bound := critical;
    }
  }
}
