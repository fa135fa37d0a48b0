/**
 The days of one robot, one per tick of a simulation: its executions are begun in
 turns, take as long as they should, and are reported as soon as they are over.
 */
module Diaries {
  import opened Types
  import opened Messages
  import opened Participation
  import opened RobotLives
  import opened Knowledge
  import opened SystemSims
  import opened RobotDays
  import opened Agendas
  import opened SimulatedDays

  /** How a robot stood before each tick and after the last, and what it was told in each. */
  datatype Diary = Diary(c: Settings, scenario: Scenario, days: seq<Standing>, news: seq<seq<Message>>)

  /** Day k of the diary follows from what the robot was told. */
  ghost predicate PassesAt(d: Diary, k: nat)
    requires k < |d.news| && k + 1 < |d.days|
  {
    && Workable(d.days[k].p)
    && Passes(d.c, d.scenario, TimeOf(d.scenario, k), k, d.news[k], d.days[k], d.days[k + 1])
  }

  /** The robot is alive at first, and nothing is under way or on record. */
  ghost predicate IsDiary(d: Diary) {
    && d.scenario.tickPeriod >= 0.0 && |d.days| == |d.news| + 1
    && !d.days[0].dead && d.days[0].work.None? && d.days[0].record == []
    && forall k: nat {:trigger PassesAt(d, k)} | k < |d.news| :: PassesAt(d, k)
  }

  // ------------------------------------------------------ executions take their time

  /** Begun in one of the first k ticks, by the robot it is filed under, to last as long as this robot needs for it. */
  ghost predicate IsTimed(scenario: Scenario, e: Execution, r: AgentId, k: nat) {
    && e.robot == r
    && e.finish == e.started + scenario.busy(r, e.task, e.started)
    && exists j: nat :: j < k && e.started == TimeOf(scenario, j)
  }

  lemma TimedLater(scenario: Scenario, e: Execution, r: AgentId, k: nat)
    requires IsTimed(scenario, e, r, k)
    ensures IsTimed(scenario, e, r, k + 1)
  {
  }

  ghost predicate AllTimed(scenario: Scenario, x: Standing, r: AgentId, k: nat) {
    (x.work.Some? ==> IsTimed(scenario, x.work.value, r, k)) && forall e | e in x.record :: IsTimed(scenario, e, r, k)
  }

  /** What is under way ends after `now`, and what is on record by then. */
  ghost predicate UpTo(x: Standing, now: real) {
    (x.work.Some? ==> now < x.work.value.finish) && forall e | e in x.record :: e.finish <= now
  }

  lemma TimedNext(c: Settings, scenario: Scenario, k: nat, messages: seq<Message>, x: Standing, y: Standing)
    requires Workable(x.p) && Passes(c, scenario, TimeOf(scenario, k), k, messages, x, y)
    requires AllTimed(scenario, x, c.id, k) && forall e | e in x.record :: e.finish <= TimeOf(scenario, k)
    ensures AllTimed(scenario, y, c.id, k + 1) && UpTo(y, TimeOf(scenario, k))
  {
    var now := TimeOf(scenario, k);
    forall e | IsTimed(scenario, e, c.id, k) ensures IsTimed(scenario, e, c.id, k + 1) {
      TimedLater(scenario, e, c.id, k);
    }
    if !x.dead && !KilledBy(scenario.killAt, c.id, now) {
      var benefit := scenario.benefit(c.id, k);
      var p := Informed(c, scenario, x, now, k, messages).p;
      var work := NextWork(scenario, x.work, c.id, Tick(c, p, now, benefit).next, now);
      assert work.Some? ==> IsTimed(scenario, work.value, c.id, k + 1);
    }
  }

  /** A robot's executions are timed right, and divided by the time of the last tick. */
  ghost predicate Punctual(scenario: Scenario, x: Standing, r: AgentId, k: nat) {
    && AllTimed(scenario, x, r, k)
    && (k == 0 ==> x.work.None? && x.record == [])
    && (k > 0 ==> UpTo(x, TimeOf(scenario, k - 1)))
  }

  lemma PunctualNext(d: Diary, k: nat)
    requires IsDiary(d) && k < |d.news| && Punctual(d.scenario, d.days[k], d.c.id, k)
    ensures Punctual(d.scenario, d.days[k + 1], d.c.id, k + 1)
  {
    var x, y, news := d.days[k], d.days[k + 1], d.news[k];
    assert PassesAt(d, k);
    RecordIsOver(d.scenario, x, d.c.id, k);
    TimedNext(d.c, d.scenario, k, news, x, y);
  }

  lemma RecordIsOver(scenario: Scenario, x: Standing, r: AgentId, k: nat)
    requires scenario.tickPeriod >= 0.0 && Punctual(scenario, x, r, k)
    ensures forall e | e in x.record :: e.finish <= TimeOf(scenario, k)
  {
    if k > 0 {
      TimePasses(scenario, k - 1);
    }
  }

  /** In every state executions are timed right, and divided by the time of the last tick. */
  lemma DaysArePunctual(d: Diary, k: nat)
    requires IsDiary(d) && k < |d.days|
    ensures Punctual(d.scenario, d.days[k], d.c.id, k)
  {
    for i := 0 to k
      invariant Punctual(d.scenario, d.days[i], d.c.id, i)
    {
      PunctualNext(d, i);
    }
  }

  // ------------------------------------------------------ kills

  lemma KilledNext(d: Diary, k: nat)
    requires IsDiary(d) && k < |d.news|
    ensures d.days[k + 1].dead <==> d.days[k].dead || KilledBy(d.scenario.killAt, d.c.id, TimeOf(d.scenario, k))
  {
    assert PassesAt(d, k);
  }

  /** The robot is dead exactly if a kill of it was due by the last tick. */
  lemma KilledOnTime(d: Diary, k: nat)
    requires IsDiary(d) && k < |d.news|
    ensures d.days[k + 1].dead <==> KilledBy(d.scenario.killAt, d.c.id, TimeOf(d.scenario, k))
  {
    KilledNext(d, 0);
    for i := 0 to k
      invariant d.days[i + 1].dead <==> KilledBy(d.scenario.killAt, d.c.id, TimeOf(d.scenario, i))
    {
      KilledNext(d, i + 1);
      KilledByLater(d.scenario.killAt, d.c.id, d.scenario, i);
    }
  }

  lemma KilledByLater(killAt: seq<(AgentId, real)>, r: AgentId, scenario: Scenario, i: nat)
    requires scenario.tickPeriod >= 0.0
    ensures KilledBy(killAt, r, TimeOf(scenario, i)) ==> KilledBy(killAt, r, TimeOf(scenario, i + 1))
  {
    TimePasses(scenario, i);
  }

  // ------------------------------------------------------ begun when dispatched, reported when over

  /** The robot when it comes to its turn in tick k, having heard the news. */
  ghost function AtTurnOf(d: Diary, k: nat): (p: Participant)
    requires k < |d.news| && k + 1 < |d.days| && Workable(d.days[k].p)
    ensures Workable(p)
  {
    Informed(d.c, d.scenario, d.days[k], TimeOf(d.scenario, k), k, d.news[k]).p
  }

  /** It is alive in tick k, so it has its turn. */
  ghost predicate HasTurn(d: Diary, k: nat)
    requires k < |d.news| && k + 1 < |d.days|
  {
    PassesAt(d, k) && !d.days[k + 1].dead
  }

  /** What its turn in tick k leaves behind. */
  ghost function TurnOf(d: Diary, k: nat): Participant
    requires k < |d.news| && k + 1 < |d.days| && HasTurn(d, k)
  {
    Tick(d.c, AtTurnOf(d, k), TimeOf(d.scenario, k), d.scenario.benefit(d.c.id, k)).next
  }

  /** Its turn in tick k gives the host no new work and takes none away. */
  ghost predicate Undisturbed(d: Diary, k: nat)
    requires k < |d.news| && k + 1 < |d.days|
  {
    HasTurn(d, k) && TurnOf(d, k).dispatches == [] && TurnOf(d, k).aborts == []
  }

  /** After tick k the execution is under way, or on record if it is over by then. */
  ghost predicate GoesOnOrOver(d: Diary, k: nat, e: Execution)
    requires k < |d.news| && k + 1 < |d.days|
  {
    if e.finish <= TimeOf(d.scenario, k) then
      d.days[k + 1].work.None? && d.days[k + 1].record == d.days[k].record + [e]
    else
      d.days[k + 1].work == Some(e) && d.days[k + 1].record == d.days[k].record
  }

  /** After tick k nothing is under way and the record is as it was. */
  ghost predicate NothingInHand(d: Diary, k: nat)
    requires k < |d.news| && k + 1 < |d.days|
  {
    d.days[k + 1].work.None? && d.days[k + 1].record == d.days[k].record
  }

  lemma WorkOfDay(d: Diary, k: nat)
    requires IsDiary(d) && k < |d.news| && HasTurn(d, k)
    ensures var work := NextWork(d.scenario, d.days[k].work, d.c.id, TurnOf(d, k), TimeOf(d.scenario, k));
            if work.Some? then GoesOnOrOver(d, k, work.value) else NothingInHand(d, k)
  {
    DayIsLived(d, k);
    LivedWork(d.c, d.scenario, TimeOf(d.scenario, k), k, d.news[k], d.days[k], d.days[k + 1]);
  }

  lemma DayIsLived(d: Diary, k: nat)
    requires IsDiary(d) && k < |d.news| && HasTurn(d, k)
    ensures LivesThrough(d.c, d.scenario, TimeOf(d.scenario, k), k, d.news[k], d.days[k], d.days[k + 1])
  {
  }

  lemma LivedWork(c: Settings, scenario: Scenario, now: real, i: nat, messages: seq<Message>, x: Standing, y: Standing)
    requires Workable(x.p) && LivesThrough(c, scenario, now, i, messages, x, y)
    ensures var p := Informed(c, scenario, x, now, i, messages).p;
            var work := NextWork(scenario, x.work, c.id, Tick(c, p, now, scenario.benefit(c.id, i)).next, now);
            if work.Some? && work.value.finish <= now then y.work.None? && y.record == x.record + [work.value]
            else y.work == work && y.record == x.record
  {
  }

  /** An undisturbed host goes on with its work, and reports it once it is over. */
  lemma UndisturbedWork(d: Diary, k: nat)
    requires IsDiary(d) && k < |d.news| && Undisturbed(d, k) && d.days[k].work.Some?
    ensures GoesOnOrOver(d, k, d.days[k].work.value)
  {
    WorkOfDay(d, k);
  }

  /** What a turn dispatches last is begun at once, to last as long as the robot needs for it. */
  lemma BegunWhenDispatched(d: Diary, k: nat, next: Participant)
    requires IsDiary(d) && k < |d.news| && HasTurn(d, k) && next == TurnOf(d, k) && next.dispatches != []
    ensures GoesOnOrOver(d, k, Begun(d, k, Last(next.dispatches)))
  {
    WorkOfDay(d, k);
    DispatchBegins(d, k, next);
  }

  lemma DispatchBegins(d: Diary, k: nat, next: Participant)
    requires k < |d.days| && next.dispatches != []
    ensures NextWork(d.scenario, d.days[k].work, d.c.id, next, TimeOf(d.scenario, k))
            == Some(Begun(d, k, Last(next.dispatches)))
  {
  }

  /** The execution of `t` by the robot, begun in tick k. */
  function Begun(d: Diary, k: nat, t: TaskId): Execution {
    var now := TimeOf(d.scenario, k);
    Execution(t, d.c.id, now, now + d.scenario.busy(d.c.id, t, now))
  }

  function Last(s: seq<TaskId>): TaskId
    requires s != []
  {
    s[|s| - 1]
  }

  /** Aborted work is dropped and never goes on record. */
  lemma DroppedWhenAborted(d: Diary, k: nat)
    requires IsDiary(d) && k < |d.news| && HasTurn(d, k)
    requires TurnOf(d, k).dispatches == [] && (TurnOf(d, k).aborts != [] || d.days[k].work.None?)
    ensures NothingInHand(d, k)
  {
    WorkOfDay(d, k);
  }

  /** The dead drop their work, which never goes on record. */
  lemma DroppedWhenKilled(d: Diary, k: nat)
    requires IsDiary(d) && k < |d.news| && d.days[k + 1].dead
    ensures NothingInHand(d, k) && d.days[k + 1].p == d.days[k].p
  {
    assert PassesAt(d, k);
  }

  /** Tick f is the first since tick k that is not before the end of `e`. */
  ghost predicate FirstNotBefore(scenario: Scenario, e: Execution, k: nat, f: nat) {
    k <= f && e.finish <= TimeOf(scenario, f) && forall j: nat | k <= j < f :: TimeOf(scenario, j) < e.finish
  }

  /**
   Work in hand that the robot is left to, from tick k to the first tick f that is not
   before its end, is under way until then, not on record before, and on record after.
   */
  lemma ReportedOnTime(d: Diary, k: nat, f: nat, e: Execution)
    requires IsDiary(d) && k <= f < |d.news| && d.days[k].work == Some(e)
    requires forall j: nat {:trigger Undisturbed(d, j)} | k <= j <= f :: Undisturbed(d, j)
    requires FirstNotBefore(d.scenario, e, k, f)
    ensures forall j: nat {:trigger IsUnderWay(d, j, e)} | k <= j <= f ::
              IsUnderWay(d, j, e) && d.days[j].record == d.days[k].record
    ensures e !in d.days[k].record
    ensures d.days[f + 1].work.None? && d.days[f + 1].record == d.days[k].record + [e]
  {
    for i := k to f
      invariant IsUnderWay(d, i, e)
      invariant forall j: nat {:trigger IsUnderWay(d, j, e)} | k <= j <= i ::
                  IsUnderWay(d, j, e) && d.days[j].record == d.days[k].record
    {
      assert Undisturbed(d, i);
      UndisturbedWork(d, i);
    }
    assert Undisturbed(d, f) && IsUnderWay(d, f, e);
    UndisturbedWork(d, f);
    UnderWayIsNew(d, k, e);
  }

  ghost predicate IsUnderWay(d: Diary, k: nat, e: Execution)
    requires k < |d.days|
  {
    d.days[k].work == Some(e)
  }

  /** What is under way is not on record. */
  lemma UnderWayIsNew(d: Diary, k: nat, e: Execution)
    requires IsDiary(d) && k < |d.days| && d.days[k].work == Some(e)
    ensures e !in d.days[k].record
  {
    DaysArePunctual(d, k);
  }

  // ------------------------------------------------------ what is learned stays known

  /** In tick k the robot lives, and is told that `t` is complete or reports it itself. */
  ghost predicate LearnsOn(d: Diary, k: nat, t: TaskId)
    requires k < |d.news| && k + 1 < |d.days|
  {
    !d.days[k + 1].dead && (IsTold(d.news[k], t) || Reported(d.days[k], d.days[k + 1], t))
  }

  ghost predicate IsTold(news: seq<Message>, t: TaskId) {
    exists m :: m in news && m.TaskCompleted? && m.taskId == t
  }

  /** An execution of `t` went on record. */
  ghost predicate Reported(x: Standing, y: Standing, t: TaskId) {
    |y.record| > |x.record| && y.record[|y.record| - 1].task == t
  }

  /** All that happens to a robot that lives through a tick. */
  ghost function ActsOn(c: Settings, scenario: Scenario, now: real, i: nat, news: seq<Message>, x: Standing,
                        y: Standing): seq<Act>
  {
    var benefit := scenario.benefit(c.id, i);
    HeardAll(news, now, benefit) + [Act.Ticks(now, benefit)]
    + if |y.record| > |x.record| then [Act.Finishes(y.record[|y.record| - 1].task, now)] else []
  }

  lemma OneMoreLived(s: Settings, p: Participant, acts: seq<Act>, act: Act)
    requires Workable(p)
    ensures Lived(s, p, acts + [act]) == After(s, Lived(s, p, acts), act)
  {
    assert (acts + [act])[..|acts|] == acts;
  }

  /** A robot that lives through a tick lives what happens to it. */
  lemma DayIsALife(c: Settings, scenario: Scenario, now: real, i: nat, news: seq<Message>, x: Standing, y: Standing)
    requires Workable(x.p) && LivesThrough(c, scenario, now, i, news, x, y)
    ensures y.p == Lived(c, x.p, ActsOn(c, scenario, now, i, news, x, y))
  {
    var benefit := scenario.benefit(c.id, i);
    var heard, turn := HeardAll(news, now, benefit), Act.Ticks(now, benefit);
    OneMoreLived(c, x.p, heard, turn);
    if |y.record| > |x.record| {
      OneMoreLived(c, x.p, heard + [turn], Act.Finishes(y.record[|y.record| - 1].task, now));
    } else {
      assert heard + [turn] + [] == heard + [turn];
    }
  }

  lemma LearnsFromActs(c: Settings, scenario: Scenario, now: real, i: nat, news: seq<Message>, x: Standing, y: Standing,
                       t: TaskId)
    ensures LearnsOf(ActsOn(c, scenario, now, i, news, x, y), t) <==> IsTold(news, t) || Reported(x, y, t)
  {
    var acts := ActsOn(c, scenario, now, i, news, x, y);
    forall k | 0 <= k < |news| ensures acts[k].Hears? && acts[k].message == news[k] {
    }
    if IsTold(news, t) {
      var m :| m in news && m.TaskCompleted? && m.taskId == t;
      var k :| 0 <= k < |news| && news[k] == m;
      assert Completes(acts[k], t);
    }
    if Reported(x, y, t) {
      assert Completes(acts[|news| + 1], t);
    }
  }

  /** By the end of a tick a robot knows to be complete what it knew before and what it learned in the tick. */
  lemma CompletedNext(d: Diary, k: nat, t: TaskId)
    requires IsDiary(d) && k < |d.news|
    ensures t in d.days[k + 1].p.completed <==> t in d.days[k].p.completed || LearnsOn(d, k, t)
  {
    var now := TimeOf(d.scenario, k);
    assert PassesAt(d, k);
    if d.days[k + 1].dead {
      DroppedWhenKilled(d, k);
    } else {
      DayIsLived(d, k);
      DayIsALife(d.c, d.scenario, now, k, d.news[k], d.days[k], d.days[k + 1]);
      LearnsFromActs(d.c, d.scenario, now, k, d.news[k], d.days[k], d.days[k + 1], t);
      CompletionsOnlyGrow(d.c, d.days[k].p, ActsOn(d.c, d.scenario, now, k, d.news[k], d.days[k], d.days[k + 1]), t);
    }
  }

  /** After any number of ticks a robot knows exactly those tasks to be complete that it learned of in one of them. */
  lemma CompletedIffLearned(d: Diary, k: nat, t: TaskId)
    requires IsDiary(d) && k < |d.days| && t !in d.days[0].p.completed
    ensures t in d.days[k].p.completed <==> exists j: nat :: j < k && LearnsOn(d, j, t)
  {
    for i := 0 to k
      invariant t in d.days[i].p.completed <==> exists j: nat :: j < i && LearnsOn(d, j, t)
    {
      CompletedNext(d, i, t);
    }
  }

  // ------------------------------------------------------ tasks

  /** The news name a task of this id that one robot can do. */
  ghost predicate IsToldOf(news: seq<Message>, t: TaskId) {
    exists m :: m in news && m.TaskInjected? && m.task.id == t && !m.task.Collaborative()
  }

  lemma ToldFromActs(acts: seq<Act>, news: seq<Message>, t: TaskId)
    requires |news| <= |acts|
    requires forall k | 0 <= k < |acts| ::
               if k < |news| then acts[k].Hears? && acts[k].message == news[k] else !acts[k].Hears?
    ensures ToldOf(acts, t, false) <==> IsToldOf(news, t)
  {
    if IsToldOf(news, t) {
      var m :| m in news && m.TaskInjected? && m.task.id == t && !m.task.Collaborative();
      var k :| 0 <= k < |news| && news[k] == m;
      assert TellsOf(acts[k], m.task);
    }
    if ToldOf(acts, t, false) {
      var k, task :| 0 <= k < |acts| && TellsOf(acts[k], task) && task.id == t && !task.Collaborative();
      assert acts[k].Hears? && k < |news|;
      assert news[k] in news;
    }
  }

  /** By the end of a tick a robot knows the tasks it knew and those it was told of in the tick. */
  lemma TasksNext(d: Diary, k: nat, t: TaskId)
    requires IsDiary(d) && k < |d.news|
    ensures t in d.days[k + 1].p.tasks
            <==> t in d.days[k].p.tasks || (!d.days[k + 1].dead && IsToldOf(d.news[k], t))
  {
    var now := TimeOf(d.scenario, k);
    assert PassesAt(d, k);
    if d.days[k + 1].dead {
      DroppedWhenKilled(d, k);
    } else {
      var acts := ActsOn(d.c, d.scenario, now, k, d.news[k], d.days[k], d.days[k + 1]);
      DayIsLived(d, k);
      DayIsALife(d.c, d.scenario, now, k, d.news[k], d.days[k], d.days[k + 1]);
      ToldFromActs(acts, d.news[k], t);
      TasksOnlyGrow(d.c, d.days[k].p, acts, t);
    }
  }

  /** A robot knows the tasks it knew at first, and those it was told of in a tick it lived through. */
  lemma KnownIffTold(d: Diary, k: nat, t: TaskId)
    requires IsDiary(d) && k < |d.days|
    ensures t in d.days[k].p.tasks
            <==> t in d.days[0].p.tasks || exists j: nat :: j < k && !d.days[j + 1].dead && IsToldOf(d.news[j], t)
  {
    for i := 0 to k
      invariant t in d.days[i].p.tasks
                <==> t in d.days[0].p.tasks || exists j: nat :: j < i && !d.days[j + 1].dead && IsToldOf(d.news[j], t)
    {
      TasksNext(d, i, t);
    }
  }
}
