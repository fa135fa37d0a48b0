/**
 In every run of a fleet a robot's state is that of the life it has led, so what
 holds of lives holds of robots in runs.
 */
module FleetLives {
  import opened Types
  import opened Messages
  import opened Participation
  import opened Coordination
  import opened FleetRuns
  import opened FleetRecords
  import opened RobotLives
  import opened Knowledge
  import opened Coordinators

  /** What a step is to robot `r`, if it is about that robot. */
  ghost function ActOf(s: System, step: Step, r: AgentId): Option<Act> {
    match step
    case Receive(q, m, now, benefit) => if q == r then Some(Hears(m, now, benefit)) else None
    case Inject(q, task, now, benefit) => if q == r then Some(Hears(TaskInjected(task, now), now, benefit)) else None
    case TickRobot(q, now, benefit) => if q == r then Some(Ticks(now, benefit)) else None
    case Finish(q, now) => if q == r && r in s.host then Some(Finishes(s.host[r], now)) else None
    case _ => None
  }

  /** The life of robot `r` in this run. */
  ghost function ActsOf(fleet: Fleet, run: seq<Step>, r: AgentId): seq<Act>
    requires fleet.Valid() && IsRun(fleet, run)
  {
    if run == [] then []
    else
      var before, last := run[..|run| - 1], run[|run| - 1];
      match ActOf(Execute(fleet, before), last, r)
      case Some(act) => ActsOf(fleet, before, r) + [act]
      case None => ActsOf(fleet, before, r)
  }

  lemma StepIsAct(fleet: Fleet, s: System, step: Step, r: AgentId)
    requires Invariant(fleet, s) && Enabled(fleet, s, step) && r in s.robots
    ensures r in Apply(fleet, s, step).robots && r in fleet.settings && Workable(s.robots[r])
    ensures Apply(fleet, s, step).robots[r]
            == match ActOf(s, step, r)
               case Some(act) => After(fleet.settings[r], s.robots[r], act)
               case None => s.robots[r]
  {
    assert SafeRobot(fleet.mission, s.finished, s.robots[r]);
    if step.Receive? || step.Inject? || step.TickRobot? || step.Finish? {
      if step.robot == r {
        OwnStepIsAct(fleet, s, step);
      } else {
        OthersStand(fleet, s, step, r);
      }
    }
  }

  lemma OthersStand(fleet: Fleet, s: System, step: Step, r: AgentId)
    requires Invariant(fleet, s) && Enabled(fleet, s, step) && r in s.robots && !step.Lose? && step.robot != r
    ensures r in Apply(fleet, s, step).robots && Apply(fleet, s, step).robots[r] == s.robots[r]
  {
  }

  lemma OwnStepIsAct(fleet: Fleet, s: System, step: Step)
    requires Invariant(fleet, s) && Enabled(fleet, s, step) && !step.Lose? && !step.Kill?
    requires step.robot in fleet.settings && Workable(s.robots[step.robot])
    ensures var r := step.robot;
            && r in Apply(fleet, s, step).robots && ActOf(s, step, r).Some?
            && Apply(fleet, s, step).robots[r] == After(fleet.settings[r], s.robots[r], ActOf(s, step, r).value)
  {
  }

  /** A robot in a run is as its life made it. */
  lemma {:induction false} RobotsLive(fleet: Fleet, run: seq<Step>, r: AgentId)
    requires fleet.Valid() && IsRun(fleet, run) && r in fleet.settings
    ensures r in Execute(fleet, run).robots
    ensures Execute(fleet, run).robots[r]
            == Lived(fleet.settings[r], Start(fleet.settings[r]), ActsOf(fleet, run, r))
    decreases |run|
  {
    if run != [] {
      var before, last := run[..|run| - 1], run[|run| - 1];
      RobotsLive(fleet, before, r);
      StepIsAct(fleet, Execute(fleet, before), last, r);
      var acts := ActsOf(fleet, run, r);
      if acts != ActsOf(fleet, before, r) {
        assert acts[..|acts| - 1] == ActsOf(fleet, before, r);
      }
    }
  }

  // ------------------------------------------------------ completions in runs

  /** In step k robot `r` hears that `t` is complete, or its host finishes it. */
  ghost predicate LearnsAt(fleet: Fleet, run: seq<Step>, k: nat, r: AgentId, t: TaskId)
    requires fleet.Valid() && IsRun(fleet, run) && k < |run|
  {
    match run[k]
    case Receive(q, m, _, _) => q == r && m.TaskCompleted? && m.taskId == t
    case Finish(q, _) => q == r && FinishesAt(fleet, run, k, t)
    case _ => false
  }

  lemma LearnsLast(fleet: Fleet, run: seq<Step>, r: AgentId, t: TaskId)
    requires fleet.Valid() && IsRun(fleet, run) && run != [] && r in fleet.settings
    ensures var before, last := run[..|run| - 1], |run| - 1;
            && IsRun(fleet, before) && r in Execute(fleet, run).robots && r in Execute(fleet, before).robots
            && (t in Execute(fleet, run).robots[r].completed
                <==> t in Execute(fleet, before).robots[r].completed || LearnsAt(fleet, run, last, r, t))
  {
    var before, last := run[..|run| - 1], |run| - 1;
    RobotsLive(fleet, before, r);
    StepCompletes(fleet, Execute(fleet, before), run[last], r, t);
    LearnsLastIsTold(fleet, run, r, t);
  }

  lemma LearnsLastIsTold(fleet: Fleet, run: seq<Step>, r: AgentId, t: TaskId)
    requires fleet.Valid() && IsRun(fleet, run) && run != []
    ensures IsRun(fleet, run[..|run| - 1])
    ensures LearnsAt(fleet, run, |run| - 1, r, t)
            <==> StepTells(Execute(fleet, run[..|run| - 1]), run[|run| - 1], r, t)
  {
    FinishesLast(fleet, run, t);
    StepIsTold(Execute(fleet, run[..|run| - 1]), run[|run| - 1], r, t);
  }

  lemma StepIsTold(s: System, step: Step, r: AgentId, t: TaskId)
    requires step.Finish? ==> step.robot in s.host
    ensures StepTells(s, step, r, t)
            <==> match step
                 case Receive(q, m, _, _) => q == r && m.TaskCompleted? && m.taskId == t
                 case Finish(q, _) => q == r && s.host[q] == t
                 case _ => false
  {
  }

  /** The step tells `r` of the completion of `t`. */
  ghost predicate StepTells(s: System, step: Step, r: AgentId, t: TaskId) {
    match ActOf(s, step, r)
    case Some(act) => Completes(act, t)
    case None => false
  }

  lemma StepCompletes(fleet: Fleet, s: System, step: Step, r: AgentId, t: TaskId)
    requires Invariant(fleet, s) && Enabled(fleet, s, step) && r in s.robots
    ensures r in Apply(fleet, s, step).robots
    ensures t in Apply(fleet, s, step).robots[r].completed
            <==> t in s.robots[r].completed || StepTells(s, step, r, t)
  {
    StepIsAct(fleet, s, step, r);
    var act := ActOf(s, step, r);
    if act.Some? {
      ActIsNoted(fleet.settings[r], s.robots[r], act.value);
      ActCompletes(fleet.settings[r].id, NotesOf(s.robots[r]), act.value, t);
    }
  }

  lemma ActCompletes(id: AgentId, n: Notes, act: Act, t: TaskId)
    ensures t in Noted(id, n, act).completed <==> t in n.completed || Completes(act, t)
  {
  }

  lemma LearnsBefore(fleet: Fleet, run: seq<Step>, k: nat, r: AgentId, t: TaskId)
    requires fleet.Valid() && IsRun(fleet, run) && k < |run| - 1
    ensures IsRun(fleet, run[..|run| - 1])
    ensures LearnsAt(fleet, run, k, r, t) <==> LearnsAt(fleet, run[..|run| - 1], k, r, t)
  {
    FinishesBefore(fleet, run, k, t);
  }

  /**
   In every run a robot knows exactly those tasks to be complete whose completion
   it has received or its own host has reported, at whatever step that was.
   */
  lemma {:induction false} CompletionsInRuns(fleet: Fleet, run: seq<Step>, r: AgentId, t: TaskId)
    requires fleet.Valid() && IsRun(fleet, run) && r in fleet.settings
    ensures r in Execute(fleet, run).robots
    ensures t in Execute(fleet, run).robots[r].completed <==> Occurs(Learnings(fleet, run, r, t))
    decreases |run|
  {
    RobotsLive(fleet, run, r);
    if run != [] {
      var before, last := run[..|run| - 1], |run| - 1;
      CompletionsInRuns(fleet, before, r, t);
      LearnsLast(fleet, run, r, t);
      LearningsNext(fleet, run, r, t);
      OccursNext(Learnings(fleet, before, r, t), Learnings(fleet, run, r, t), last);
    }
  }

  /** The steps in which `r` learns that `t` is complete. */
  ghost function Learnings(fleet: Fleet, run: seq<Step>, r: AgentId, t: TaskId): iset<nat>
    requires fleet.Valid() && IsRun(fleet, run)
  {
    iset k: nat | k < |run| && LearnsAt(fleet, run, k, r, t)
  }

  lemma LearningsNext(fleet: Fleet, run: seq<Step>, r: AgentId, t: TaskId)
    requires fleet.Valid() && IsRun(fleet, run) && run != []
    ensures var before, last := run[..|run| - 1], |run| - 1;
            && IsRun(fleet, before) && (LearnsAt(fleet, run, last, r, t) <==> last in Learnings(fleet, run, r, t))
            && (forall k: nat :: k in Learnings(fleet, run, r, t)
                                 <==> k in Learnings(fleet, before, r, t)
                                      || (k == last && last in Learnings(fleet, run, r, t)))
  {
    forall k: nat | k < |run| - 1
      ensures LearnsAt(fleet, run, k, r, t) <==> LearnsAt(fleet, run[..|run| - 1], k, r, t)
    {
      LearnsBefore(fleet, run, k, r, t);
    }
  }

  /** What a robot has been told is complete stays so at every later point of the run. */
  lemma CompletionsStay(fleet: Fleet, run: seq<Step>, k: nat, j: nat, r: AgentId, t: TaskId)
    requires fleet.Valid() && IsRun(fleet, run) && r in fleet.settings
    requires k < j <= |run| && LearnsAt(fleet, run, k, r, t)
    ensures IsRun(fleet, run[..j]) && r in Execute(fleet, run[..j]).robots
    ensures t in Execute(fleet, run[..j]).robots[r].completed
  {
    PrefixIsRun(fleet, run, j);
    assert run[..j][..k] == run[..k];
    assert LearnsAt(fleet, run[..j], k, r, t) && k in Learnings(fleet, run[..j], r, t);
    CompletionsInRuns(fleet, run[..j], r, t);
  }

  // ------------------------------------------------------ framing in runs

  /** Nothing beyond what `r` has seen is framed by `r` yet. */
  lemma NewRoundIsUnframed(fleet: Fleet, s: System, a: RoundAnnouncement)
    requires Invariant(fleet, s) && a.coordinator in s.robots && a.roundId > s.robots[a.coordinator].maxRoundSeen
    ensures a !in s.framed
  {
    assert a in s.framed ==> KnownToFramer(s, a);
  }

  lemma NewIsFramed(framed: set<RoundAnnouncement>, out: set<Message>, seen: int)
    requires forall a | Announce(a) in out && a.roundId > seen :: a !in framed
    requires forall a | a in Announcements(out) && a !in framed :: a.roundId > seen
    ensures framed + Announcements(out) != framed <==> AnnouncesNew(out, seen)
  {
    if a :| Announce(a) in out && a.roundId > seen {
      assert a in Announcements(out);
    }
    if framed + Announcements(out) != framed {
      var a :| a in Announcements(out) && a !in framed;
      assert Announce(a) in out;
    }
  }

  /** The framings on record grow exactly by what the tick announces that is new. */
  lemma FramedIsAnnounced(fleet: Fleet, s: System, r: AgentId, now: real, benefit: TaskId -> real)
    requires Invariant(fleet, s) && Enabled(fleet, s, TickRobot(r, now, benefit))
    ensures var out := Tick(fleet.settings[r], s.robots[r], now, benefit).out;
            Apply(fleet, s, TickRobot(r, now, benefit)).framed != s.framed
            <==> AnnouncesNew(out, s.robots[r].maxRoundSeen)
  {
    var c, p := fleet.settings[r], s.robots[r];
    var out := Tick(c, p, now, benefit).out;
    assert SafeRobot(fleet.mission, s.finished, p);
    TickSendsSoundly(fleet, s, r, now, benefit);
    assert Apply(fleet, s, TickRobot(r, now, benefit)).framed == s.framed + Announcements(out);
    AnnouncesIfFrames(c, p, now, benefit);
    forall a | Announce(a) in out && a.roundId > p.maxRoundSeen ensures a !in s.framed {
      NewRoundIsUnframed(fleet, s, a);
    }
    NewIsFramed(s.framed, out, p.maxRoundSeen);
  }

  /**
   In every run a robot's tick frames a new round exactly if the robot has heard
   from no lower id within the timeout, the round it holds is over, and it knows a
   task that is available and a robot that is idle.
   */
  lemma FramersInRuns(fleet: Fleet, run: seq<Step>, r: AgentId, now: real, benefit: TaskId -> real)
    requires fleet.Valid() && IsRun(fleet, run) && Enabled(fleet, Execute(fleet, run), TickRobot(r, now, benefit))
    ensures var s, c, acts := Execute(fleet, run), fleet.settings[r], ActsOf(fleet, run, r);
            var own := AtTurn(c, acts, now);
            Apply(fleet, s, TickRobot(r, now, benefit)).framed != s.framed
            <==> NobodyLower(acts, r, now, c.timeout) && RoundIsOver(c, own, now)
                 && AvailableTasks(own) != {} && KnownIdle(c, own, now) != {}
  {
    RobotsLive(fleet, run, r);
    FramedIsAnnounced(fleet, Execute(fleet, run), r, now, benefit);
    FramersAreLeast(fleet.settings[r], ActsOf(fleet, run, r), now, benefit);
  }

  /** Of robots with the same view only the least can frame. */
  lemma OneFramerPerView(fleet: Fleet, run: seq<Step>, r: AgentId, now: real, benefit: TaskId -> real,
                         view: iset<AgentId>)
    requires fleet.Valid() && IsRun(fleet, run) && Enabled(fleet, Execute(fleet, run), TickRobot(r, now, benefit))
    requires View(fleet.settings[r], ActsOf(fleet, run, r), now) == view
    requires Apply(fleet, Execute(fleet, run), TickRobot(r, now, benefit)).framed != Execute(fleet, run).framed
    ensures LeastIn(r, view)
  {
    FramersInRuns(fleet, run, r, now, benefit);
    LeastByHearing(fleet.settings[r], ActsOf(fleet, run, r), now);
  }
}
