/**
 When things happen in a simulation: robots die and tasks are injected on time,
 executions take as long as they should, and each goes on record in the first tick
 that is not before its end.
 */
module SimTiming {
  import opened Types
  import opened Messages
  import opened Participation
  import opened Coordination
  import opened FleetRuns
  import opened RobotLives
  import opened Knowledge
  import opened SystemSims
  import opened RobotDays
  import opened Agendas
  import opened SimulatedDays
  import opened Diaries

  /** Ticks 0 to k - 1 of the simulation have gone through without anything raising. */
  ghost predicate GoneThrough(setup: Setup, history: seq<Sim>, k: nat) {
    IsHistory(setup, history) && k < |history| && !history[k].failed
  }

  /** Tick k is what leads from one state to the next. */
  lemma TickIsTick(setup: Setup, history: seq<Sim>, k: nat) returns (hosts: seq<AgentId>)
    requires IsHistory(setup, history) && k + 1 < |history|
    ensures SimOk(setup.fleet, history[k], TimeOf(setup.scenario, k))
    ensures history[k].injected <= |setup.scenario.inject|
    ensures IsTick(setup.fleet, setup.scenario, setup.order, history[k], TimeOf(setup.scenario, k), k, hosts,
                   history[k + 1])
  {
    assert LinkedAt(history, Ticking(setup), k);
    hosts :| IsTick(setup.fleet, setup.scenario, setup.order, history[k], TimeOf(setup.scenario, k), k, hosts,
                    history[k + 1]);
  }

  lemma FiledNext(setup: Setup, history: seq<Sim>, k: nat)
    requires IsHistory(setup, history) && k + 1 < |history| && Filed(setup.fleet, history[k])
    ensures Filed(setup.fleet, history[k + 1]) && (history[k].failed ==> history[k + 1].failed)
  {
    var hosts := TickIsTick(setup, history, k);
    TickFiles(setup.fleet, setup.scenario, setup.order, history[k], TimeOf(setup.scenario, k), k, hosts,
              history[k + 1]);
  }

  lemma FiledAtFirst(setup: Setup)
    ensures Filed(setup.fleet, Loaded(setup))
  {
    NothingAtFirst(setup);
  }

  /** Executions are filed in every state. */
  lemma HistoryIsFiled(setup: Setup, history: seq<Sim>, k: nat)
    requires IsHistory(setup, history) && k < |history|
    ensures Filed(setup.fleet, history[k])
  {
    FiledAtFirst(setup);
    for i := 0 to k
      invariant Filed(setup.fleet, history[i])
    {
      FiledNext(setup, history, i);
    }
  }

  /** What has not raised by now had not raised before. */
  lemma NotFailedBefore(setup: Setup, history: seq<Sim>, k: nat)
    requires GoneThrough(setup, history, k + 1)
    ensures GoneThrough(setup, history, k)
  {
    HistoryIsFiled(setup, history, k);
    FiledNext(setup, history, k);
  }

  /** The ticks that have gone through. */
  ghost function Through(setup: Setup, history: seq<Sim>): iset<nat> {
    iset k: nat | GoneThrough(setup, history, k)
  }

  lemma ThroughBefore(setup: Setup, history: seq<Sim>, k: nat)
    requires k + 1 in Through(setup, history)
    ensures k in Through(setup, history)
  {
    NotFailedBefore(setup, history, k);
  }

  lemma AllThrough(setup: Setup, history: seq<Sim>, k: nat)
    requires GoneThrough(setup, history, k)
    ensures forall j: nat | j <= k :: j in Through(setup, history)
  {
    assert k in Through(setup, history);
    forall j: nat | j <= k ensures j in Through(setup, history) {
      ThroughDownTo(setup, history, k, j);
    }
  }

  lemma {:induction false} ThroughDownTo(setup: Setup, history: seq<Sim>, k: nat, j: nat)
    requires k in Through(setup, history) && j <= k
    ensures j in Through(setup, history)
    decreases k - j
  {
    if j < k {
      ThroughDownTo(setup, history, k, j + 1);
      ThroughBefore(setup, history, j);
    }
  }

  /** Robot `r` after so many ticks. */
  ghost function RobotAt(setup: Setup, history: seq<Sim>, k: nat, r: AgentId): (x: Standing)
    requires IsHistory(setup, history) && k < |history| && r in setup.fleet.settings
    ensures Workable(x.p) && r in history[k].s.robots && x == StandingOf(history[k], r)
  {
    HistoryIsOk(setup, history, k);
    HistoryIsFiled(setup, history, k);
    IsTracked(setup.fleet, history[k], TimeOf(setup.scenario, k), r);
    StandingOf(history[k], r)
  }

  /** What `r` is told in tick k. */
  ghost function NewsAt(setup: Setup, history: seq<Sim>, k: nat, r: AgentId): seq<Message>
    requires IsHistory(setup, history) && k + 1 < |history|
             && history[k].injected <= history[k + 1].injected <= |setup.scenario.inject|
  {
    News(setup.scenario, history[k], TimeOf(setup.scenario, k), k, r, history[k + 1].injected)
  }

  lemma InjectionsOnlyGrow(setup: Setup, history: seq<Sim>, k: nat)
    requires IsHistory(setup, history) && k + 1 < |history|
    ensures history[k].injected <= history[k + 1].injected <= |setup.scenario.inject|
    ensures history[k + 1].injected == InjectedBy(setup.scenario.inject, history[k].injected, TimeOf(setup.scenario, k))
  {
    var hosts := TickIsTick(setup, history, k);
  }

  /**
   What tick k makes of a robot, unless something raises: a due kill ends it, and
   otherwise it hears the tasks injected by now and its mail, has its turn, which may
   begin new work or end the work in hand, and reports what is due.
   */
  lemma DayPasses(setup: Setup, history: seq<Sim>, k: nat, r: AgentId)
    requires GoneThrough(setup, history, k + 1) && r in setup.fleet.settings
    ensures history[k].injected <= history[k + 1].injected <= |setup.scenario.inject|
    ensures Passes(setup.fleet.settings[r], setup.scenario, TimeOf(setup.scenario, k), k, NewsAt(setup, history, k, r),
                   RobotAt(setup, history, k, r), RobotAt(setup, history, k + 1, r))
  {
    NotFailedBefore(setup, history, k);
    HistoryIsFiled(setup, history, k);
    InjectionsOnlyGrow(setup, history, k);
    var hosts := TickIsTick(setup, history, k);
    IsTracked(setup.fleet, history[k], TimeOf(setup.scenario, k), r);
    TickPasses(setup.fleet, setup.scenario, setup.order, history[k], TimeOf(setup.scenario, k), k, hosts,
               history[k + 1], r);
  }

  // ------------------------------------------------------ injections

  /** Injections are listed by time. */
  ghost predicate Sorted(inject: seq<(real, Task)>) {
    forall i, j | 0 <= i <= j < |inject| :: inject[i].0 <= inject[j].0
  }

  lemma InjectedNext(inject: seq<(real, Task)>, from: nat, now: real, j: nat)
    requires Sorted(inject) && from <= |inject| && j < |inject|
    ensures j < InjectedBy(inject, from, now) <==> j < from || inject[j].0 <= now
  {
  }

  ghost predicate IsInjected(history: seq<Sim>, k: nat, j: nat)
    requires k < |history|
  {
    j < history[k].injected
  }

  ghost predicate WasDue(scenario: Scenario, k: nat, j: nat)
    requires j < |scenario.inject|
  {
    scenario.inject[j].0 <= TimeOf(scenario, k)
  }

  lemma InjectionNext(setup: Setup, history: seq<Sim>, k: nat, j: nat)
    requires IsHistory(setup, history) && k + 1 < |history| && Sorted(setup.scenario.inject)
    requires j < |setup.scenario.inject|
    ensures IsInjected(history, k + 1, j) <==> IsInjected(history, k, j) || WasDue(setup.scenario, k, j)
  {
    InjectionsOnlyGrow(setup, history, k);
    InjectedNext(setup.scenario.inject, history[k].injected, TimeOf(setup.scenario, k), j);
  }

  lemma NothingInjectedAtFirst(setup: Setup, history: seq<Sim>, j: nat)
    requires IsHistory(setup, history)
    ensures !IsInjected(history, 0, j)
  {
    NothingAtFirst(setup);
  }

  lemma WasDueLater(scenario: Scenario, k: nat, j: nat)
    requires scenario.tickPeriod >= 0.0 && j < |scenario.inject|
    ensures WasDue(scenario, k, j) ==> WasDue(scenario, k + 1, j)
  {
    TimePasses(scenario, k);
  }

  /** The injections made are those that were due by the last tick. */
  lemma InjectionsAreOnTime(setup: Setup, history: seq<Sim>, k: nat, j: nat)
    requires IsHistory(setup, history) && k + 1 < |history| && Sorted(setup.scenario.inject)
    requires j < |setup.scenario.inject|
    ensures j < history[k + 1].injected <==> setup.scenario.inject[j].0 <= TimeOf(setup.scenario, k)
  {
    NothingInjectedAtFirst(setup, history, j);
    InjectionNext(setup, history, 0, j);
    for i := 0 to k
      invariant IsInjected(history, i + 1, j) <==> WasDue(setup.scenario, i, j)
    {
      InjectionNext(setup, history, i + 1, j);
      WasDueLater(setup.scenario, i, j);
    }
  }

  // ------------------------------------------------------ robots' diaries

  lemma StartsAlive(setup: Setup, history: seq<Sim>, r: AgentId)
    requires IsHistory(setup, history) && r in setup.fleet.settings
    ensures var x := RobotAt(setup, history, 0, r);
            !x.dead && x.work.None? && x.record == [] && x.p.completed == map[]
  {
    NothingAtFirst(setup);
    HistoryIsOk(setup, history, 0);
    assert SafeRobot(setup.fleet.mission, history[0].s.finished, history[0].s.robots[r]);
    NothingFinished(history[0], TimeOf(setup.scenario, 0));
  }

  lemma NothingFinished(sim: Sim, now: real)
    requires AllExecuted(sim, now) && sim.executions == []
    ensures sim.s.finished == {}
  {
    forall t ensures t !in sim.s.finished {
      assert t in sim.s.finished ==> FinishedBy(sim.executions, t, now);
    }
  }

  ghost predicate InjectsAt(setup: Setup, history: seq<Sim>, k: nat)
    requires k + 1 < |history|
  {
    history[k].injected <= history[k + 1].injected <= |setup.scenario.inject|
  }

  /** Day j is as the simulation has it. */
  ghost predicate DayIsKept(history: seq<Sim>, r: AgentId, d: Diary, j: nat)
    requires j < |history| && j < |d.days|
  {
    r in history[j].s.robots && d.days[j] == StandingOf(history[j], r)
  }

  /** So is the news of tick j. */
  ghost predicate NewsIsKept(setup: Setup, history: seq<Sim>, r: AgentId, d: Diary, j: nat)
    requires j + 1 < |history| && j < |d.news|
  {
    && InjectsAt(setup, history, j)
    && d.news[j] == News(setup.scenario, history[j], TimeOf(setup.scenario, j), j, r, history[j + 1].injected)
  }

  /** It is written down what the robot was told in the first k ticks, and how it stood. */
  ghost predicate IsWritten(setup: Setup, history: seq<Sim>, k: nat, r: AgentId, d: Diary) {
    && |d.days| == |d.news| + 1 && |d.news| == k < |history|
    && r in setup.fleet.settings && d.c == setup.fleet.settings[r] && d.c.id == r && d.scenario == setup.scenario
    && (forall j: nat {:trigger DayIsKept(history, r, d, j)} | j <= k :: DayIsKept(history, r, d, j))
    && (forall j: nat {:trigger NewsIsKept(setup, history, r, d, j)} | j < k :: NewsIsKept(setup, history, r, d, j))
  }

  /** The diary of robot `r` over the first k ticks of the simulation. */
  ghost predicate Keeps(setup: Setup, history: seq<Sim>, k: nat, r: AgentId, d: Diary) {
    IsWritten(setup, history, k, r, d) && IsDiary(d) && d.days[0].p.completed == map[]
  }

  lemma WriteDiary(setup: Setup, history: seq<Sim>, k: nat, r: AgentId) returns (d: Diary)
    requires GoneThrough(setup, history, k) && r in setup.fleet.settings
    ensures IsWritten(setup, history, k, r, d)
  {
    var c := setup.fleet.settings[r];
    d := Diary(c, setup.scenario, [RobotAt(setup, history, 0, r)], []);
    for i := 0 to k
      invariant IsWritten(setup, history, i, r, d)
    {
      InjectionsOnlyGrow(setup, history, i);
      d := OneMoreDay(setup, history, i, r, d, RobotAt(setup, history, i + 1, r));
    }
  }

  lemma OneMoreDay(setup: Setup, history: seq<Sim>, k: nat, r: AgentId, d: Diary, x: Standing) returns (d': Diary)
    requires IsWritten(setup, history, k, r, d) && k + 1 < |history| && InjectsAt(setup, history, k)
    requires r in history[k + 1].s.robots && x == StandingOf(history[k + 1], r)
    ensures IsWritten(setup, history, k + 1, r, d')
  {
    var news := News(setup.scenario, history[k], TimeOf(setup.scenario, k), k, r, history[k + 1].injected);
    d' := d.(days := d.days + [x], news := d.news + [news]);
    forall j: nat | j <= k + 1 ensures DayIsKept(history, r, d', j) {
      assert j <= k ==> DayIsKept(history, r, d, j);
    }
    forall j: nat | j < k + 1 ensures NewsIsKept(setup, history, r, d', j) {
      assert j < k ==> NewsIsKept(setup, history, r, d, j);
    }
  }

  /** What happens to a robot in a simulation is a diary. */
  lemma RobotsKeepDiaries(setup: Setup, history: seq<Sim>, k: nat, r: AgentId) returns (d: Diary)
    requires GoneThrough(setup, history, k) && r in setup.fleet.settings
    ensures Keeps(setup, history, k, r, d)
  {
    d := WriteDiary(setup, history, k, r);
    AllThrough(setup, history, k);
    StartsAlive(setup, history, r);
    assert DayIsKept(history, r, d, 0);
    forall j: nat | j < k ensures PassesAt(d, j) {
      assert DayIsKept(history, r, d, j) && DayIsKept(history, r, d, j + 1) && NewsIsKept(setup, history, r, d, j);
      DayInDiary(setup, history, j, r, d);
    }
  }

  lemma DayInDiary(setup: Setup, history: seq<Sim>, j: nat, r: AgentId, d: Diary)
    requires j + 1 in Through(setup, history) && j + 1 < |history| && r in setup.fleet.settings
    requires j < |d.news| && j + 1 < |d.days| && d.c == setup.fleet.settings[r] && d.scenario == setup.scenario
    requires DayIsKept(history, r, d, j) && DayIsKept(history, r, d, j + 1) && NewsIsKept(setup, history, r, d, j)
    ensures PassesAt(d, j)
  {
    DayPasses(setup, history, j, r);
  }

  // ------------------------------------------------------ what holds in every simulation

  /** The dead are those whose kill was due by the last tick. */
  lemma KillsAreOnTime(setup: Setup, history: seq<Sim>, k: nat, r: AgentId)
    requires GoneThrough(setup, history, k + 1) && r in setup.fleet.settings
    ensures r in history[k + 1].s.dead <==> KilledBy(setup.scenario.killAt, r, TimeOf(setup.scenario, k))
  {
    var d := RobotsKeepDiaries(setup, history, k + 1, r);
    KilledOnTime(d, k);
    assert DayIsKept(history, r, d, k + 1);
  }

  lemma {:induction false} InRecord(executions: seq<Execution>, e: Execution)
    ensures e in executions <==> e in RecordOf(executions, e.robot)
    decreases |executions|
  {
    if executions != [] {
      InRecord(executions[..|executions| - 1], e);
    }
  }

  /**
   The time of the last of k ticks, if any, is past the end of what is on record and
   before that of what is under way.
   */
  ghost predicate Divides(scenario: Scenario, k: nat, sim: Sim) {
    if k == 0 then sim.executing == map[] && sim.executions == []
    else
      && (forall r | r in sim.executing :: TimeOf(scenario, k - 1) < sim.executing[r].finish)
      && forall e | e in sim.executions :: e.finish <= TimeOf(scenario, k - 1)
  }

  lemma RobotIsPunctual(setup: Setup, history: seq<Sim>, k: nat, r: AgentId)
    requires k in Through(setup, history) && k < |history| && IsHistory(setup, history) && r in setup.fleet.settings
    ensures Punctual(setup.scenario, RobotAt(setup, history, k, r), r, k)
  {
    var d := RobotsKeepDiaries(setup, history, k, r);
    DaysArePunctual(d, k);
    assert DayIsKept(history, r, d, k);
  }

  lemma WorkIsTimed(setup: Setup, history: seq<Sim>, k: nat, r: AgentId)
    requires k in Through(setup, history) && k < |history| && r in history[k].executing
    ensures IsTimed(setup.scenario, history[k].executing[r], r, k)
    ensures k > 0 ==> TimeOf(setup.scenario, k - 1) < history[k].executing[r].finish
  {
    HistoryIsOk(setup, history, k);
    assert RunsSafely(setup.fleet.mission, history[k], r);
    RobotIsPunctual(setup, history, k, r);
  }

  lemma RecordIsTimed(setup: Setup, history: seq<Sim>, k: nat, e: Execution)
    requires k in Through(setup, history) && k < |history| && e in history[k].executions
    ensures IsTimed(setup.scenario, e, e.robot, k)
    ensures k > 0 ==> e.finish <= TimeOf(setup.scenario, k - 1)
  {
    HistoryIsFiled(setup, history, k);
    InRecord(history[k].executions, e);
    RobotIsPunctual(setup, history, k, e.robot);
  }

  /**
   Every execution, under way or on record, was begun in some tick by the robot it is
   filed under and lasts as long as this robot needs for the task; those on record are
   over by the last tick, and those under way are not.
   */
  lemma ExecutionsAreTimed(setup: Setup, history: seq<Sim>, k: nat)
    requires GoneThrough(setup, history, k)
    ensures forall r | r in history[k].executing :: IsTimed(setup.scenario, history[k].executing[r], r, k)
    ensures forall e | e in history[k].executions :: IsTimed(setup.scenario, e, e.robot, k)
    ensures Divides(setup.scenario, k, history[k])
  {
    AllThrough(setup, history, k);
    forall r | r in history[k].executing
      ensures IsTimed(setup.scenario, history[k].executing[r], r, k)
      ensures k > 0 ==> TimeOf(setup.scenario, k - 1) < history[k].executing[r].finish
    {
      WorkIsTimed(setup, history, k, r);
    }
    forall e | e in history[k].executions
      ensures IsTimed(setup.scenario, e, e.robot, k)
      ensures k > 0 ==> e.finish <= TimeOf(setup.scenario, k - 1)
    {
      RecordIsTimed(setup, history, k, e);
    }
    if k == 0 {
      NothingAtFirst(setup);
    }
  }

  /**
   An execution of a robot that lives and is left to it goes on record in the first
   tick whose time is not before its end: until then it is under way and not on
   record, and from then on it is on record.
   */
  lemma WorkIsReportedOnTime(setup: Setup, history: seq<Sim>, k: nat, f: nat, r: AgentId, d: Diary, e: Execution)
    requires Keeps(setup, history, f + 1, r, d) && k <= f
    requires r in history[k].executing && history[k].executing[r] == e && e.robot == r
    requires forall j: nat {:trigger Undisturbed(d, j)} | k <= j <= f :: Undisturbed(d, j)
    requires FirstNotBefore(setup.scenario, e, k, f)
    ensures forall j: nat | k <= j <= f :: r in history[j].executing && history[j].executing[r] == e
    ensures forall j: nat | k <= j <= f :: e !in history[j].executions
    ensures e in history[f + 1].executions && r !in history[f + 1].executing
  {
    assert DayIsKept(history, r, d, k);
    ReportedOnTime(d, k, f, e);
    forall j: nat | k <= j <= f
      ensures r in history[j].executing && history[j].executing[r] == e && e !in history[j].executions
    {
      assert IsUnderWay(d, j, e) && DayIsKept(history, r, d, j);
      InRecord(history[j].executions, e);
    }
    assert DayIsKept(history, r, d, f + 1);
    InRecord(history[f + 1].executions, e);
  }

  // ------------------------------------------------------ what robots know in a simulation

  /** The tasks of the initial mission, as messages. */
  function Told(tasks: seq<Task>): seq<Message> {
    seq(|tasks|, k requires 0 <= k < |tasks| => TaskInjected(tasks[k], 0.0))
  }

  lemma {:induction false} OwnBriefOne(q: AgentId, tasks: seq<Task>, r: AgentId)
    ensures Own(BriefOne(q, tasks), r) == if q == r then BriefOne(q, tasks) else []
    decreases |tasks|
  {
    if tasks != [] {
      OwnBriefOne(q, tasks[..|tasks| - 1], r);
      assert BriefOne(q, tasks)[..|tasks| - 1] == BriefOne(q, tasks[..|tasks| - 1]);
      assert BriefOne(q, tasks) == BriefOne(q, tasks)[..|tasks| - 1] + [BriefOne(q, tasks)[|tasks| - 1]];
    }
  }

  lemma {:induction false} OwnBriefing(order: seq<AgentId>, tasks: seq<Task>, r: AgentId)
    requires NoDuplicates(order)
    ensures Own(Briefing(order, tasks), r) == if r in order then BriefOne(r, tasks) else []
    decreases |order|
  {
    if order != [] {
      var rest, last := order[..|order| - 1], order[|order| - 1];
      InRestOrLast(order, r);
      OwnBriefing(rest, tasks, r);
      OwnBriefOne(last, tasks, r);
      OwnAppend(Briefing(rest, tasks), BriefOne(last, tasks), r);
      assert Own(Briefing(order, tasks), r) == Own(Briefing(rest, tasks), r) + Own(BriefOne(last, tasks), r);
    }
  }

  lemma InRestOrLast(order: seq<AgentId>, r: AgentId)
    requires order != [] && NoDuplicates(order)
    ensures var rest, last := order[..|order| - 1], order[|order| - 1];
            NoDuplicates(rest) && last !in rest && (r in order <==> r in rest || r == last)
  {
    assert order == order[..|order| - 1] + [order[|order| - 1]];
  }

  /** The initial mission names a task of this id that one robot can do. */
  ghost predicate IsBriefed(tasks: seq<Task>, t: TaskId) {
    exists task :: task in tasks && task.id == t && !task.Collaborative()
  }

  lemma ToldIsBriefed(tasks: seq<Task>, t: TaskId)
    ensures IsToldOf(Told(tasks), t) <==> IsBriefed(tasks, t)
  {
    if IsBriefed(tasks, t) {
      var task :| task in tasks && task.id == t && !task.Collaborative();
      var k :| 0 <= k < |tasks| && tasks[k] == task;
      assert Told(tasks)[k] == TaskInjected(task, 0.0);
    }
  }

  lemma LoadedRobot(setup: Setup, r: AgentId)
    requires r in setup.fleet.settings
    ensures var sim := Loaded(setup);
            r in sim.s.robots
            && sim.s.robots[r]
               == Lived(setup.fleet.settings[r], Start(setup.fleet.settings[r]),
                        HeardAll(Told(setup.tasks), 0.0, setup.scenario.benefit(r, 0)))
  {
    var fleet, scenario, c := setup.fleet, setup.scenario, setup.fleet.settings[r];
    var events := Briefing(setup.order, setup.tasks);
    LoadIsGiven(setup);
    NothingAtFirst(setup);
    IsTracked(fleet, Empty(fleet), 0.0, r);
    MovesMeet(fleet, scenario, Empty(fleet), 0.0, 0, events, r);
    assert r in Elements(setup.order);
    OwnBriefing(setup.order, setup.tasks, r);
    TalkMeets(c, scenario, StandingOf(Empty(fleet), r), 0.0, 0, BriefOne(r, setup.tasks), Told(setup.tasks));
  }

  /** At first every robot knows the tasks of the initial mission that one robot can do. */
  lemma BriefedAtFirst(setup: Setup, r: AgentId, t: TaskId)
    requires r in setup.fleet.settings
    ensures r in Loaded(setup).s.robots
    ensures t in Loaded(setup).s.robots[r].tasks <==> IsBriefed(setup.tasks, t)
  {
    LoadedRobot(setup, r);
    LivedIsBriefed(setup.fleet.settings[r], setup.tasks, setup.scenario.benefit(r, 0), t);
  }

  lemma LivedIsBriefed(c: Settings, tasks: seq<Task>, benefit: TaskId -> real, t: TaskId)
    ensures t in Lived(c, Start(c), HeardAll(Told(tasks), 0.0, benefit)).tasks <==> IsBriefed(tasks, t)
  {
    var acts := HeardAll(Told(tasks), 0.0, benefit);
    ToldFromActs(acts, Told(tasks), t);
    ToldIsBriefed(tasks, t);
    TasksOnlyGrow(c, Start(c), acts, t);
  }

  /** By tick k the robot has been told of task `t`, at first or in a tick it lived through. */
  ghost predicate WasTold(setup: Setup, d: Diary, k: nat, t: TaskId)
    requires k <= |d.news| < |d.days|
  {
    IsBriefed(setup.tasks, t) || exists j: nat :: j < k && !d.days[j + 1].dead && IsToldOf(d.news[j], t)
  }

  /** By tick k the robot has learned that `t` is complete. */
  ghost predicate HasLearned(d: Diary, k: nat, t: TaskId)
    requires k <= |d.news| < |d.days|
  {
    exists j: nat :: j < k && LearnsOn(d, j, t)
  }

  /** What a robot knows in a simulation: the tasks it was told of, and those complete that it learned of. */
  lemma SimulatedKnowledge(setup: Setup, history: seq<Sim>, k: nat, r: AgentId, d: Diary, t: TaskId)
    requires IsHistory(setup, history) && Keeps(setup, history, k, r, d)
    ensures r in history[k].s.robots
    ensures t in history[k].s.robots[r].tasks <==> WasTold(setup, d, k, t)
    ensures t in history[k].s.robots[r].completed <==> HasLearned(d, k, t)
  {
    assert DayIsKept(history, r, d, 0) && DayIsKept(history, r, d, k);
    BriefedAtFirst(setup, r, t);
    KnownIffTold(d, k, t);
    CompletedIffLearned(d, k, t);
  }

  /**
   A robot thinks the mission complete exactly if it was told of tasks and has learned
   that all of them are complete.
   */
  lemma CompleteIffAllLearned(setup: Setup, history: seq<Sim>, k: nat, r: AgentId, d: Diary)
    requires IsHistory(setup, history) && Keeps(setup, history, k, r, d)
    ensures r in history[k].s.robots
    ensures MissionComplete(history[k].s.robots[r])
            <==> LearnedAll(setup, d, k)
  {
    assert DayIsKept(history, r, d, k);
    var told, learned := iset t | WasTold(setup, d, k, t), iset t | HasLearned(d, k, t);
    var p := history[k].s.robots[r];
    forall t ensures t in p.tasks <==> t in told
             ensures t in p.completed <==> t in learned
    {
      SimulatedKnowledge(setup, history, k, r, d, t);
    }
    CompleteIfCovered(p, told, learned);
    assert forall t :: t in told <==> WasTold(setup, d, k, t);
  }

  lemma CompleteIfCovered(p: Participant, told: iset<TaskId>, learned: iset<TaskId>)
    requires forall t :: (t in p.tasks <==> t in told) && (t in p.completed <==> t in learned)
    ensures MissionComplete(p) <==> (exists t :: t in told) && forall t | t in told :: t in learned
  {
    if p.tasks != map[] {
      var t :| t in p.tasks.Keys;
      assert t in told;
    }
  }

  /** It was told of some task, and has learned that every task it was told of is complete. */
  ghost predicate LearnedAll(setup: Setup, d: Diary, k: nat)
    requires k <= |d.news| < |d.days|
  {
    (exists t :: WasTold(setup, d, k, t)) && forall t | WasTold(setup, d, k, t) :: HasLearned(d, k, t)
  }

  /** The robot has learned all it was told of, by its diary. */
  ghost predicate IsContent(setup: Setup, history: seq<Sim>, k: nat, r: AgentId) {
    exists d :: Keeps(setup, history, k, r, d) && LearnedAll(setup, d, k)
  }

  lemma ContentIffComplete(setup: Setup, history: seq<Sim>, k: nat, r: AgentId)
    requires GoneThrough(setup, history, k) && r in setup.fleet.settings
    ensures r in history[k].s.robots
    ensures IsContent(setup, history, k, r) <==> MissionComplete(history[k].s.robots[r])
  {
    var d := RobotsKeepDiaries(setup, history, k, r);
    CompleteIffAllLearned(setup, history, k, r, d);
    forall e | Keeps(setup, history, k, r, e)
      ensures LearnedAll(setup, e, k) <==> MissionComplete(history[k].s.robots[r])
    {
      CompleteIffAllLearned(setup, history, k, r, e);
    }
  }

  /**
   The mission counts as complete, and the simulation ends, exactly when somebody is
   alive and every robot alive has learned that all tasks it was told of are complete.
   */
  lemma CompleteWhenAllHaveLearned(setup: Setup, history: seq<Sim>, k: nat)
    requires GoneThrough(setup, history, k)
    ensures AllComplete(history[k].s)
            <==> (exists r :: Live(history[k].s, r))
                 && forall r | Live(history[k].s, r) :: IsContent(setup, history, k, r)
  {
    HistoryIsOk(setup, history, k);
    var content := iset r | IsContent(setup, history, k, r);
    forall r | Live(history[k].s, r) ensures r in content <==> MissionComplete(history[k].s.robots[r]) {
      ContentIffComplete(setup, history, k, r);
    }
    AllCompleteIf(history[k].s, content);
    assert forall r :: r in content <==> IsContent(setup, history, k, r);
  }

  lemma AllCompleteIf(s: System, content: iset<AgentId>)
    requires forall r | Live(s, r) :: r in content <==> MissionComplete(s.robots[r])
    ensures AllComplete(s) <==> (exists r :: Live(s, r)) && forall r | Live(s, r) :: r in content
  {
    assert (exists r :: Live(s, r)) ==> exists r :: r in s.robots && r !in s.dead by {
      if r :| Live(s, r) {
        assert r in s.robots && r !in s.dead;
      }
    }
    if exists r :: r in s.robots && r !in s.dead {
      var r :| r in s.robots && r !in s.dead;
      assert Live(s, r);
    }
  }
}
