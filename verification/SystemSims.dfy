/**
 The whole-mission simulator: kills, injected tasks, deliveries, ticks and
 finished executions, in the order of its loop. Every move is a step of the
 transition system, so what holds in every run of a fleet holds in every
 simulation.
 */
module SystemSims {
  import opened Types
  import opened Dag
  import opened Messages
  import opened Participation
  import opened Coordination
  import opened FleetRuns
  import opened ExactlyOnce
  import Sets

  datatype Execution = Execution(task: TaskId, robot: AgentId, started: real, finish: real)

  /**
   The state of the simulator: the robots and their messages, what runs, what has
   run, how many tasks have been injected, and whether something raised.
   */
  datatype Sim = Sim(s: System, executing: map<AgentId, Execution>, executions: seq<Execution>, injected: nat,
                     failed: bool)

  /**
   What the simulation is given: when robots die, what is injected when, how long
   executions take, what benefits are, and which messages arrive at a tick.
   */
  datatype Scenario = Scenario(
    tickPeriod: real, killAt: seq<(AgentId, real)>, inject: seq<(real, Task)>,
    busy: (AgentId, TaskId, real) -> real, benefit: (AgentId, nat) -> TaskId -> real,
    arrivals: (nat, set<Message>) -> seq<(AgentId, Message)>)

  ghost predicate InMission(fleet: Fleet, task: Task) {
    task.id in fleet.mission && fleet.mission[task.id] == task
  }

  /** Only sent messages arrive, and only at robots of the simulation; injected tasks belong to the mission. */
  ghost predicate ValidScenario(fleet: Fleet, scenario: Scenario) {
    && fleet.Valid()
    && scenario.tickPeriod >= 0.0
    && (forall a | a in scenario.killAt :: a.0 in fleet.settings)
    && (forall a | a in scenario.inject :: InMission(fleet, a.1))
    && (forall i, net, a | a in scenario.arrivals(i, net) :: a.0 in fleet.settings && a.1 in net)
  }

  // ------------------------------------------------------ what the executions promise

  /** An execution of `t` on record ended by `time`. */
  ghost predicate FinishedBy(executions: seq<Execution>, t: TaskId, time: real) {
    exists j :: 0 <= j < |executions| && executions[j].task == t && executions[j].finish <= time
  }

  /** Every prerequisite had been executed by the time this execution started. */
  ghost predicate StartsAfterPrerequisites(mission: Tasks, executions: seq<Execution>, e: Execution) {
    e.task in mission && forall p | p in mission[e.task].prerequisites :: FinishedBy(executions, p, e.started)
  }

  ghost predicate ExecutedInOrder(mission: Tasks, executions: seq<Execution>) {
    forall k | 0 <= k < |executions| :: StartsAfterPrerequisites(mission, executions[..k], executions[k])
  }

  ghost predicate RunsSafely(mission: Tasks, sim: Sim, r: AgentId)
    requires r in sim.executing && r in sim.s.host
  {
    && Live(sim.s, r)
    && sim.executing[r].task == sim.s.host[r]
    && StartsAfterPrerequisites(mission, sim.executions, sim.executing[r])
  }

  /** The finished tasks are those with an execution on record, and these are over. */
  ghost predicate AllExecuted(sim: Sim, now: real) {
    && (forall t | t in sim.s.finished :: FinishedBy(sim.executions, t, now))
    && (forall e | e in sim.executions :: e.task in sim.s.finished)
  }

  /** Some run of the fleet leads to this state. */
  ghost predicate Reached(fleet: Fleet, s: System) {
    fleet.Valid() && exists run :: IsRun(fleet, run) && Execute(fleet, run) == s
  }

  ghost predicate SimOk(fleet: Fleet, sim: Sim, now: real) {
    && Reached(fleet, sim.s) && Invariant(fleet, sim.s)
    && sim.executing.Keys == sim.s.host.Keys
    && (forall r {:trigger RunsSafely(fleet.mission, sim, r)} | r in sim.executing :: RunsSafely(fleet.mission, sim, r))
    && AllExecuted(sim, now)
    && ExecutedInOrder(fleet.mission, sim.executions)
  }

  lemma FinishedLater(executions: seq<Execution>, t: TaskId, time: real, more: seq<Execution>, time': real)
    requires FinishedBy(executions, t, time) && time <= time'
    ensures FinishedBy(executions + more, t, time')
  {
    var j :| 0 <= j < |executions| && executions[j].task == t && executions[j].finish <= time;
    assert (executions + more)[j] == executions[j];
  }

  lemma StartsAfterStays(mission: Tasks, executions: seq<Execution>, e: Execution, more: seq<Execution>)
    requires StartsAfterPrerequisites(mission, executions, e)
    ensures StartsAfterPrerequisites(mission, executions + more, e)
  {
    forall p | p in mission[e.task].prerequisites ensures FinishedBy(executions + more, p, e.started) {
      FinishedLater(executions, p, e.started, more, e.started);
    }
  }

  /** Time passes. */
  lemma SimOkLater(fleet: Fleet, sim: Sim, now: real, later: real)
    requires SimOk(fleet, sim, now) && now <= later
    ensures SimOk(fleet, sim, later)
  {
    forall t | t in sim.s.finished ensures FinishedBy(sim.executions, t, later) {
      FinishedLater(sim.executions, t, now, [], later);
      assert sim.executions + [] == sim.executions;
    }
  }

  // ------------------------------------------------------ the moves

  /** What the loop turns to next: whether anything comes of it depends on the state. */
  datatype Event =
    | Dies(robot: AgentId, time: real)
    | Learns(robot: AgentId, task: Task)
    | Hears(robot: AgentId, message: Message)
    | Ticks(robot: AgentId)
    | Reports(robot: AgentId)

  /** The event is about a robot of the simulation, a message that was sent, a task of the mission. */
  ghost predicate Given(fleet: Fleet, sim: Sim, e: Event) {
    && e.robot in sim.s.robots && e.robot in fleet.settings
    && (e.Learns? ==> InMission(fleet, e.task))
    && (e.Hears? ==> e.message in sim.s.net)
  }

  /** The dead do nothing; kills and executions happen when they are due. */
  predicate IsDue(sim: Sim, now: real, e: Event) {
    match e
    case Dies(r, time) => r !in sim.s.dead && now >= time
    case Reports(r) => r in sim.executing && now >= sim.executing[r].finish
    case _ => e.robot !in sim.s.dead
  }

  function StepOf(scenario: Scenario, now: real, i: nat, e: Event): Step {
    match e
    case Dies(r, time) => Kill(r)
    case Learns(r, task) => Inject(r, task, now, scenario.benefit(r, i))
    case Hears(r, m) => Receive(r, m, now, scenario.benefit(r, i))
    case Ticks(r) => TickRobot(r, now, scenario.benefit(r, i))
    case Reports(r) => Finish(r, now)
  }

  /** The robot raises: over tasks that are no DAG, or over a finished task it was never told of. */
  ghost predicate Raises(fleet: Fleet, sim: Sim, now: real, e: Event)
    requires SimOk(fleet, sim, now) && Given(fleet, sim, e)
  {
    assert SafeRobot(fleet.mission, sim.s.finished, sim.s.robots[e.robot]);
    match e
    case Ticks(r) => TickRaises(fleet.settings[r], sim.s.robots[r], now)
    case Reports(r) => r in sim.executing && sim.executing[r].task !in sim.s.robots[r].tasks
    case _ => false
  }

  /** The host drops aborted work and takes on dispatched work, in this order. */
  function HostUpdate(scenario: Scenario, executing: map<AgentId, Execution>, r: AgentId, p: Participant,
                      now: real): map<AgentId, Execution>
  {
    var kept := if p.aborts != [] then executing - {r} else executing;
    if p.dispatches == [] then kept
    else
      var t := p.dispatches[|p.dispatches| - 1];
      kept[r := Execution(t, r, now, now + scenario.busy(r, t, now))]
  }

  lemma DueIsEnabled(fleet: Fleet, scenario: Scenario, sim: Sim, now: real, i: nat, e: Event)
    requires SimOk(fleet, sim, now) && Given(fleet, sim, e) && IsDue(sim, now, e) && !Raises(fleet, sim, now, e)
    ensures Enabled(fleet, sim.s, StepOf(scenario, now, i, e))
  {
    assert SafeRobot(fleet.mission, sim.s.finished, sim.s.robots[e.robot]);
    if e.Reports? {
      assert RunsSafely(fleet.mission, sim, e.robot);
    }
  }

  /** What a move makes of the executions under way. */
  ghost function ExecutingAfter(fleet: Fleet, scenario: Scenario, sim: Sim, now: real, i: nat,
                                e: Event): map<AgentId, Execution>
    requires SimOk(fleet, sim, now) && Given(fleet, sim, e) && !Raises(fleet, sim, now, e)
  {
    assert SafeRobot(fleet.mission, sim.s.finished, sim.s.robots[e.robot]);
    match e
    case Dies(r, time) => sim.executing - {r}
    case Reports(r) => sim.executing - {r}
    case Ticks(r) =>
      HostUpdate(scenario, sim.executing, r, Tick(fleet.settings[r], sim.s.robots[r], now, scenario.benefit(r, i)).next,
                 now)
    case _ => sim.executing
  }

  /** A move that is due and does not raise is a step of the fleet; a finished execution goes on record. */
  ghost function Moved(fleet: Fleet, scenario: Scenario, sim: Sim, now: real, i: nat, e: Event): Sim
    requires SimOk(fleet, sim, now) && Given(fleet, sim, e) && IsDue(sim, now, e) && !Raises(fleet, sim, now, e)
  {
    DueIsEnabled(fleet, scenario, sim, now, i, e);
    sim.(s := Apply(fleet, sim.s, StepOf(scenario, now, i, e)),
         executing := ExecutingAfter(fleet, scenario, sim, now, i, e),
         executions := if e.Reports? then sim.executions + [sim.executing[e.robot]] else sim.executions)
  }

  /** The simulator's reaction to an event; once something has raised, there is none. */
  ghost function Move(fleet: Fleet, scenario: Scenario, sim: Sim, now: real, i: nat, e: Event): Sim
    requires SimOk(fleet, sim, now) && Given(fleet, sim, e)
  {
    if sim.failed || !IsDue(sim, now, e) then sim
    else if Raises(fleet, sim, now, e) then sim.(failed := true)
    else Moved(fleet, scenario, sim, now, i, e)
  }

  // ------------------------------------------------------ every move keeps the promises

  lemma StepReaches(fleet: Fleet, s: System, step: Step)
    requires Reached(fleet, s) && Invariant(fleet, s) && Enabled(fleet, s, step)
    ensures Reached(fleet, Apply(fleet, s, step)) && Invariant(fleet, Apply(fleet, s, step))
  {
    var run :| IsRun(fleet, run) && Execute(fleet, run) == s;
    Extend(fleet, run, step);
  }

  /** The executions stay safe when no host takes on new work and nothing is finished. */
  lemma QuietMoveKeepsSim(fleet: Fleet, sim: Sim, now: real, s': System, executing: map<AgentId, Execution>)
    requires SimOk(fleet, sim, now) && Reached(fleet, s') && Invariant(fleet, s')
    requires s'.finished == sim.s.finished && executing.Keys == s'.host.Keys
    requires forall r | r in executing ::
               r in sim.executing && executing[r] == sim.executing[r] && s'.host[r] == sim.s.host[r] && Live(s', r)
    ensures SimOk(fleet, sim.(s := s', executing := executing), now)
  {
    forall r | r in executing ensures RunsSafely(fleet.mission, sim.(s := s', executing := executing), r) {
      assert RunsSafely(fleet.mission, sim, r);
    }
    SafeExecutionsKeepSim(fleet, sim, now, s', executing);
  }

  lemma DiesKeepsSim(fleet: Fleet, sim: Sim, now: real, r: AgentId)
    requires SimOk(fleet, sim, now) && Live(sim.s, r)
    ensures SimOk(fleet, sim.(s := ApplyKill(sim.s, r), executing := sim.executing - {r}), now)
  {
    StepReaches(fleet, sim.s, Kill(r));
    forall q | q in sim.executing - {r} ensures Live(ApplyKill(sim.s, r), q) {
      assert RunsSafely(fleet.mission, sim, q);
    }
    QuietMoveKeepsSim(fleet, sim, now, ApplyKill(sim.s, r), sim.executing - {r});
  }

  lemma HearsKeepsSim(fleet: Fleet, sim: Sim, now: real, step: Step)
    requires SimOk(fleet, sim, now) && Enabled(fleet, sim.s, step) && (step.Receive? || step.Inject?)
    ensures SimOk(fleet, sim.(s := Apply(fleet, sim.s, step)), now)
  {
    StepReaches(fleet, sim.s, step);
    forall q | q in sim.executing ensures Live(Apply(fleet, sim.s, step), q) {
      assert RunsSafely(fleet.mission, sim, q);
    }
    QuietMoveKeepsSim(fleet, sim, now, Apply(fleet, sim.s, step), sim.executing);
  }

  /** A host only takes on work whose prerequisites are finished, so executed. */
  lemma TicksKeepsSim(fleet: Fleet, scenario: Scenario, sim: Sim, now: real, r: AgentId, benefit: TaskId -> real)
    requires SimOk(fleet, sim, now) && Enabled(fleet, sim.s, TickRobot(r, now, benefit))
    ensures var next := Tick(fleet.settings[r], sim.s.robots[r], now, benefit).next;
            SimOk(fleet, sim.(s := Apply(fleet, sim.s, TickRobot(r, now, benefit)),
                              executing := HostUpdate(scenario, sim.executing, r, next, now)), now)
  {
    var next := Tick(fleet.settings[r], sim.s.robots[r], now, benefit).next;
    var s' := Apply(fleet, sim.s, TickRobot(r, now, benefit));
    StepReaches(fleet, sim.s, TickRobot(r, now, benefit));
    HostUpdateKeepsSim(fleet, scenario, sim, now, r, next, s');
  }

  /** `host'` is `host` after the host of `r` has taken note of the aborts and dispatches of `p`. */
  ghost predicate HostMoved(host: map<AgentId, TaskId>, host': map<AgentId, TaskId>, r: AgentId, p: Participant) {
    var record := HostAfter(Record(host, r), p.aborts, p.dispatches);
    host' == if record.Some? then host[r := record.value] else host - {r}
  }

  lemma HostUpdateKeepsSim(fleet: Fleet, scenario: Scenario, sim: Sim, now: real, r: AgentId, p: Participant,
                           s': System)
    requires SimOk(fleet, sim, now) && Live(sim.s, r) && Reached(fleet, s') && Invariant(fleet, s') && Live(s', r)
    requires s'.finished == sim.s.finished && s'.dead == sim.s.dead && s'.robots.Keys == sim.s.robots.Keys
    requires HostMoved(sim.s.host, s'.host, r, p)
    ensures SimOk(fleet, sim.(s := s', executing := HostUpdate(scenario, sim.executing, r, p, now)), now)
  {
    var executing := HostUpdate(scenario, sim.executing, r, p, now);
    HostUpdateMoves(scenario, sim.executing, sim.s.host, s'.host, r, p, now);
    forall q | q in executing ensures RunsSafely(fleet.mission, sim.(s := s', executing := executing), q) {
      if q != r || p.dispatches == [] {
        assert RunsSafely(fleet.mission, sim, q);
      } else {
        FreshWorkIsSafe(fleet, sim, now, s', r, executing[r]);
      }
    }
    SafeExecutionsKeepSim(fleet, sim, now, s', executing);
  }

  lemma SafeExecutionsKeepSim(fleet: Fleet, sim: Sim, now: real, s': System, executing: map<AgentId, Execution>)
    requires SimOk(fleet, sim, now) && Reached(fleet, s') && Invariant(fleet, s')
    requires s'.finished == sim.s.finished && executing.Keys == s'.host.Keys
    requires forall q | q in executing :: RunsSafely(fleet.mission, sim.(s := s', executing := executing), q)
    ensures SimOk(fleet, sim.(s := s', executing := executing), now)
  {
  }

  lemma FreshWorkIsSafe(fleet: Fleet, sim: Sim, now: real, s': System, r: AgentId, e: Execution)
    requires AllExecuted(sim, now) && Invariant(fleet, s') && Live(s', r) && r in s'.host
             && s'.finished == sim.s.finished
    requires e.task == s'.host[r] && e.started == now
    ensures StartsAfterPrerequisites(fleet.mission, sim.executions, e)
  {
    FinishIsExpected(fleet, s', r);
  }

  lemma HostUpdateMoves(scenario: Scenario, executing: map<AgentId, Execution>, host: map<AgentId, TaskId>,
                        host': map<AgentId, TaskId>, r: AgentId, p: Participant, now: real)
    requires executing.Keys == host.Keys && HostMoved(host, host', r, p)
    ensures var executing' := HostUpdate(scenario, executing, r, p, now);
            && executing'.Keys == host'.Keys
            && (forall q | q in executing' && (q != r || p.dispatches == []) ::
                  q in executing && executing'[q] == executing[q] && host'[q] == host[q])
            && (p.dispatches != [] ==>
                  r in executing' && executing'[r].task == host'[r] && executing'[r].started == now)
  {
  }

  lemma ReportsKeepsSim(fleet: Fleet, sim: Sim, now: real, r: AgentId)
    requires SimOk(fleet, sim, now) && Enabled(fleet, sim.s, Finish(r, now))
    requires r in sim.executing && sim.executing[r].finish <= now
    ensures SimOk(fleet, sim.(s := Apply(fleet, sim.s, Finish(r, now)), executing := sim.executing - {r},
                              executions := sim.executions + [sim.executing[r]]), now)
  {
    var e, s' := sim.executing[r], Apply(fleet, sim.s, Finish(r, now));
    var sim' := sim.(s := s', executing := sim.executing - {r}, executions := sim.executions + [e]);
    StepReaches(fleet, sim.s, Finish(r, now));
    StepHosts(fleet, sim.s, Finish(r, now));
    assert RunsSafely(fleet.mission, sim, r);
    forall q | q in sim'.executing ensures RunsSafely(fleet.mission, sim', q) {
      assert RunsSafely(fleet.mission, sim, q);
      StartsAfterStays(fleet.mission, sim.executions, sim.executing[q], [e]);
    }
    RecordKeepsExecuted(sim, sim', now, e);
    RecordKeepsOrder(fleet.mission, sim.executions, e);
  }

  lemma RecordKeepsExecuted(sim: Sim, sim': Sim, now: real, e: Execution)
    requires AllExecuted(sim, now) && e.finish <= now
    requires sim'.executions == sim.executions + [e] && sim'.s.finished == sim.s.finished + {e.task}
    ensures AllExecuted(sim', now)
  {
    forall t | t in sim'.s.finished ensures FinishedBy(sim'.executions, t, now) {
      if t in sim.s.finished {
        FinishedLater(sim.executions, t, now, [e], now);
      } else {
        assert sim'.executions[|sim.executions|] == e;
      }
    }
  }

  lemma RecordKeepsOrder(mission: Tasks, executions: seq<Execution>, e: Execution)
    requires ExecutedInOrder(mission, executions) && StartsAfterPrerequisites(mission, executions, e)
    ensures ExecutedInOrder(mission, executions + [e])
  {
    var longer := executions + [e];
    forall k | 0 <= k < |longer| ensures StartsAfterPrerequisites(mission, longer[..k], longer[k]) {
      if k < |executions| {
        assert longer[..k] == executions[..k];
      } else {
        assert longer[..k] == executions;
      }
    }
  }

  /** Same robots, and nothing that was sent gets lost. */
  ghost predicate Onward(sim: Sim, sim': Sim) {
    sim'.s.robots.Keys == sim.s.robots.Keys && sim.s.net <= sim'.s.net && sim'.injected == sim.injected
  }

  lemma MovedKeepsSim(fleet: Fleet, scenario: Scenario, sim: Sim, now: real, i: nat, e: Event)
    requires SimOk(fleet, sim, now) && Given(fleet, sim, e) && IsDue(sim, now, e) && !Raises(fleet, sim, now, e)
    ensures SimOk(fleet, Moved(fleet, scenario, sim, now, i, e), now)
    ensures Onward(sim, Moved(fleet, scenario, sim, now, i, e))
  {
    DueIsEnabled(fleet, scenario, sim, now, i, e);
    match e
    case Dies(r, time) => DiesKeepsSim(fleet, sim, now, r);
    case Learns(r, task) => HearsKeepsSim(fleet, sim, now, StepOf(scenario, now, i, e));
    case Hears(r, m) => HearsKeepsSim(fleet, sim, now, StepOf(scenario, now, i, e));
    case Ticks(r) => TicksKeepsSim(fleet, scenario, sim, now, r, scenario.benefit(r, i));
    case Reports(r) => ReportsKeepsSim(fleet, sim, now, r);
  }

  lemma MoveKeepsSim(fleet: Fleet, scenario: Scenario, sim: Sim, now: real, i: nat, e: Event)
    requires SimOk(fleet, sim, now) && Given(fleet, sim, e)
    ensures SimOk(fleet, Move(fleet, scenario, sim, now, i, e), now)
    ensures Onward(sim, Move(fleet, scenario, sim, now, i, e))
  {
    if sim.failed || !IsDue(sim, now, e) {
    } else if Raises(fleet, sim, now, e) {
      FailedIsOk(fleet, sim, now);
    } else {
      MovedKeepsSim(fleet, scenario, sim, now, i, e);
    }
  }

  lemma FailedIsOk(fleet: Fleet, sim: Sim, now: real)
    requires SimOk(fleet, sim, now)
    ensures SimOk(fleet, sim.(failed := true), now)
  {
    forall r | r in sim.executing ensures RunsSafely(fleet.mission, sim.(failed := true), r) {
      assert RunsSafely(fleet.mission, sim, r);
    }
  }

  // ------------------------------------------------------ one move at a time

  method Die(ghost fleet: Fleet, ghost scenario: Scenario, sim: Sim, now: real, ghost i: nat, r: AgentId, time: real)
    returns (sim': Sim)
    requires SimOk(fleet, sim, now) && Given(fleet, sim, Dies(r, time))
    ensures sim' == Move(fleet, scenario, sim, now, i, Dies(r, time))
  {
    if sim.failed || r in sim.s.dead || now < time {
      return sim;
    }
    sim' := sim.(s := ApplyKill(sim.s, r), executing := sim.executing - {r});
  }

  method Learn(fleet: Fleet, scenario: Scenario, sim: Sim, now: real, i: nat, r: AgentId, task: Task)
    returns (sim': Sim)
    requires SimOk(fleet, sim, now) && Given(fleet, sim, Learns(r, task))
    ensures sim' == Move(fleet, scenario, sim, now, i, Learns(r, task))
  {
    if sim.failed || r in sim.s.dead {
      return sim;
    }
    sim' := sim.(s := ApplyReceive(fleet, sim.s, r, TaskInjected(task, now), now, scenario.benefit(r, i)));
  }

  method Hear(fleet: Fleet, scenario: Scenario, sim: Sim, now: real, i: nat, r: AgentId, m: Message) returns (sim': Sim)
    requires SimOk(fleet, sim, now) && Given(fleet, sim, Hears(r, m))
    ensures sim' == Move(fleet, scenario, sim, now, i, Hears(r, m))
  {
    if sim.failed || r in sim.s.dead {
      return sim;
    }
    sim' := sim.(s := ApplyReceive(fleet, sim.s, r, m, now, scenario.benefit(r, i)));
  }

  /** Announcements that were sent never make a robot raise. */
  lemma HearingNeverRaises(fleet: Fleet, sim: Sim, now: real, r: AgentId, a: RoundAnnouncement)
    requires SimOk(fleet, sim, now) && Given(fleet, sim, Hears(r, Announce(a)))
    ensures !AnnouncementRaises(fleet.settings[r].id, sim.s.robots[r], a)
  {
    assert SafeMessage(fleet.mission, sim.s.finished, Announce(a));
  }

  /** A live robot has what a tick needs. */
  lemma TickIsPossible(fleet: Fleet, sim: Sim, now: real, r: AgentId)
    requires SimOk(fleet, sim, now) && Given(fleet, sim, Ticks(r))
    ensures Workable(sim.s.robots[r]) && r in sim.s.heard
    ensures Raises(fleet, sim, now, Ticks(r)) == TickRaises(fleet.settings[r], sim.s.robots[r], now)
  {
    assert SafeRobot(fleet.mission, sim.s.finished, sim.s.robots[r]);
  }

  lemma TickMoves(fleet: Fleet, scenario: Scenario, sim: Sim, now: real, i: nat, r: AgentId)
    requires SimOk(fleet, sim, now) && Given(fleet, sim, Ticks(r)) && !sim.failed && r !in sim.s.dead
    requires Workable(sim.s.robots[r]) && r in sim.s.heard && !TickRaises(fleet.settings[r], sim.s.robots[r], now)
    requires !Raises(fleet, sim, now, Ticks(r))
    ensures var next := Tick(fleet.settings[r], sim.s.robots[r], now, scenario.benefit(r, i)).next;
            Move(fleet, scenario, sim, now, i, Ticks(r))
            == sim.(s := ApplyTick(fleet, sim.s, r, now, scenario.benefit(r, i)),
                    executing := HostUpdate(scenario, sim.executing, r, next, now))
  {
    DueIsEnabled(fleet, scenario, sim, now, i, Ticks(r));
  }

  method TickOne(fleet: Fleet, scenario: Scenario, sim: Sim, now: real, i: nat, r: AgentId) returns (sim': Sim)
    requires SimOk(fleet, sim, now) && Given(fleet, sim, Ticks(r))
    ensures sim' == Move(fleet, scenario, sim, now, i, Ticks(r))
  {
    if sim.failed || r in sim.s.dead {
      return sim;
    }
    TickIsPossible(fleet, sim, now, r);
    var c, p := fleet.settings[r], sim.s.robots[r];
    var raised := LookForTasks(c, TickOwn(c, p, now).next, now);
    if raised {
      return sim.(failed := true);
    }
    TickMoves(fleet, scenario, sim, now, i, r);
    var next := Tick(c, p, now, scenario.benefit(r, i)).next;
    sim' := sim.(s := ApplyTick(fleet, sim.s, r, now, scenario.benefit(r, i)),
                 executing := HostUpdate(scenario, sim.executing, r, next, now));
  }

  lemma ReportMoves(fleet: Fleet, scenario: Scenario, sim: Sim, now: real, i: nat, r: AgentId)
    requires SimOk(fleet, sim, now) && Given(fleet, sim, Reports(r)) && !sim.failed && IsDue(sim, now, Reports(r))
    requires sim.executing[r].task in sim.s.robots[r].tasks
    ensures r in sim.s.heard && r in sim.s.host
    ensures Move(fleet, scenario, sim, now, i, Reports(r))
            == sim.(s := ApplyFinish(fleet, sim.s, r, now), executing := sim.executing - {r},
                    executions := sim.executions + [sim.executing[r]])
  {
    DueIsEnabled(fleet, scenario, sim, now, i, Reports(r));
  }

  method Report(fleet: Fleet, ghost scenario: Scenario, sim: Sim, now: real, ghost i: nat, r: AgentId)
    returns (sim': Sim)
    requires SimOk(fleet, sim, now) && Given(fleet, sim, Reports(r))
    ensures sim' == Move(fleet, scenario, sim, now, i, Reports(r))
  {
    if sim.failed || r !in sim.executing || now < sim.executing[r].finish {
      return sim;
    }
    if sim.executing[r].task !in sim.s.robots[r].tasks {
      return sim.(failed := true);
    }
    ReportMoves(fleet, scenario, sim, now, i, r);
    sim' := sim.(s := ApplyFinish(fleet, sim.s, r, now), executing := sim.executing - {r},
                 executions := sim.executions + [sim.executing[r]]);
  }

  // ------------------------------------------------------ sequences of moves

  ghost predicate AllGiven(fleet: Fleet, sim: Sim, events: seq<Event>) {
    forall e | e in events :: Given(fleet, sim, e)
  }

  lemma StillGiven(fleet: Fleet, sim: Sim, sim': Sim, events: seq<Event>)
    requires AllGiven(fleet, sim, events) && sim'.s.robots.Keys == sim.s.robots.Keys && sim.s.net <= sim'.s.net
    ensures AllGiven(fleet, sim', events)
  {
    forall e | e in events ensures Given(fleet, sim', e) {
      assert Given(fleet, sim, e);
    }
  }

  /** The simulator's reaction to these events, one after the other. */
  ghost function Moves(fleet: Fleet, scenario: Scenario, sim: Sim, now: real, i: nat, events: seq<Event>): (sim': Sim)
    requires SimOk(fleet, sim, now) && AllGiven(fleet, sim, events)
    ensures SimOk(fleet, sim', now) && Onward(sim, sim')
    decreases |events|
  {
    if events == [] then sim
    else
      var rest, last := events[..|events| - 1], events[|events| - 1];
      var before := Moves(fleet, scenario, sim, now, i, rest);
      StillGiven(fleet, sim, before, events);
      MoveKeepsSim(fleet, scenario, before, now, i, last);
      Move(fleet, scenario, before, now, i, last)
  }

  lemma OneMoreMove(fleet: Fleet, scenario: Scenario, sim: Sim, now: real, i: nat, events: seq<Event>, k: nat)
    requires SimOk(fleet, sim, now) && AllGiven(fleet, sim, events) && k < |events|
    ensures AllGiven(fleet, sim, events[..k]) && AllGiven(fleet, sim, events[..k + 1])
    ensures var before := Moves(fleet, scenario, sim, now, i, events[..k]);
            Given(fleet, before, events[k])
            && Moves(fleet, scenario, sim, now, i, events[..k + 1]) == Move(fleet, scenario, before, now, i, events[k])
  {
    assert events[..k + 1][..k] == events[..k];
    StillGiven(fleet, sim, Moves(fleet, scenario, sim, now, i, events[..k]), events);
  }

  /** React to one event. */
  method React(fleet: Fleet, scenario: Scenario, sim: Sim, now: real, i: nat, e: Event) returns (sim': Sim)
    requires SimOk(fleet, sim, now) && Given(fleet, sim, e)
    ensures sim' == Move(fleet, scenario, sim, now, i, e)
  {
    match e {
      case Dies(r, time) => sim' := Die(fleet, scenario, sim, now, i, r, time);
      case Learns(r, task) => sim' := Learn(fleet, scenario, sim, now, i, r, task);
      case Hears(r, m) => sim' := Hear(fleet, scenario, sim, now, i, r, m);
      case Ticks(r) => sim' := TickOne(fleet, scenario, sim, now, i, r);
      case Reports(r) => sim' := Report(fleet, scenario, sim, now, i, r);
    }
  }

  /** React to one event after the other. */
  method ReactAll(fleet: Fleet, scenario: Scenario, sim: Sim, now: real, i: nat, events: seq<Event>) returns (sim': Sim)
    requires SimOk(fleet, sim, now) && AllGiven(fleet, sim, events)
    ensures sim' == Moves(fleet, scenario, sim, now, i, events)
  {
    sim' := sim;
    for k := 0 to |events|
      invariant AllGiven(fleet, sim, events[..k]) && sim' == Moves(fleet, scenario, sim, now, i, events[..k])
    {
      OneMoreMove(fleet, scenario, sim, now, i, events, k);
      sim' := React(fleet, scenario, sim', now, i, events[k]);
    }
    assert events[..|events|] == events;
  }

  // ------------------------------------------------------ one tick

  function Deaths(killAt: seq<(AgentId, real)>): seq<Event> {
    seq(|killAt|, k requires 0 <= k < |killAt| => Dies(killAt[k].0, killAt[k].1))
  }

  function Lessons(order: seq<AgentId>, task: Task): seq<Event> {
    seq(|order|, k requires 0 <= k < |order| => Learns(order[k], task))
  }

  function Deliveries(due: seq<(AgentId, Message)>): seq<Event> {
    seq(|due|, k requires 0 <= k < |due| => Hears(due[k].0, due[k].1))
  }

  function Turns(order: seq<AgentId>): seq<Event> {
    seq(|order|, k requires 0 <= k < |order| => Ticks(order[k]))
  }

  function Finishes(hosts: seq<AgentId>): seq<Event> {
    seq(|hosts|, k requires 0 <= k < |hosts| => Reports(hosts[k]))
  }

  /** How many injections have been made once all that are due by now are, in order. */
  function InjectedBy(inject: seq<(real, Task)>, from: nat, now: real): (upto: nat)
    requires from <= |inject|
    ensures from <= upto <= |inject| && (upto < |inject| ==> now < inject[upto].0)
    ensures forall k | from <= k < upto :: inject[k].0 <= now
    decreases |inject| - from
  {
    if from < |inject| && now >= inject[from].0 then InjectedBy(inject, from + 1, now) else from
  }

  /** Every live robot learns of each of these tasks in turn. */
  function Injections(inject: seq<(real, Task)>, order: seq<AgentId>, from: nat, upto: nat): seq<Event>
    requires from <= upto <= |inject|
    decreases upto - from
  {
    if from == upto then [] else Injections(inject, order, from, upto - 1) + Lessons(order, inject[upto - 1].1)
  }

  /** What a tick has on its agenda before executions are looked at: kills, injections, deliveries, turns. */
  function Agenda(scenario: Scenario, order: seq<AgentId>, sim: Sim, now: real, i: nat): seq<Event>
    requires sim.injected <= |scenario.inject|
  {
    Deaths(scenario.killAt)
    + Injections(scenario.inject, order, sim.injected, InjectedBy(scenario.inject, sim.injected, now))
    + Deliveries(scenario.arrivals(i, sim.s.net))
    + Turns(order)
  }

  /** The participants in dictionary order. */
  ghost predicate IsOrder(fleet: Fleet, order: seq<AgentId>) {
    NoDuplicates(order) && Elements(order) == fleet.settings.Keys
  }

  lemma LessonsAreGiven(fleet: Fleet, sim: Sim, order: seq<AgentId>, task: Task)
    requires Invariant(fleet, sim.s) && IsOrder(fleet, order) && InMission(fleet, task)
    ensures AllGiven(fleet, sim, Lessons(order, task))
  {
    forall e | e in Lessons(order, task) ensures Given(fleet, sim, e) {
      assert e.robot in Elements(order);
    }
  }

  lemma {:induction false} InjectionsAreGiven(fleet: Fleet, scenario: Scenario, sim: Sim, order: seq<AgentId>,
                                              from: nat, upto: nat)
    requires ValidScenario(fleet, scenario) && Invariant(fleet, sim.s) && IsOrder(fleet, order)
             && from <= upto <= |scenario.inject|
    ensures AllGiven(fleet, sim, Injections(scenario.inject, order, from, upto))
    decreases upto - from
  {
    if from < upto {
      InjectionsAreGiven(fleet, scenario, sim, order, from, upto - 1);
      assert scenario.inject[upto - 1] in scenario.inject;
      LessonsAreGiven(fleet, sim, order, scenario.inject[upto - 1].1);
    }
  }

  lemma AgendaIsGiven(fleet: Fleet, scenario: Scenario, sim: Sim, order: seq<AgentId>, now: real, i: nat)
    requires ValidScenario(fleet, scenario) && Invariant(fleet, sim.s) && IsOrder(fleet, order)
    requires sim.injected <= |scenario.inject|
    ensures AllGiven(fleet, sim, Agenda(scenario, order, sim, now, i))
  {
    InjectionsAreGiven(fleet, scenario, sim, order, sim.injected, InjectedBy(scenario.inject, sim.injected, now));
    forall e | e in Deaths(scenario.killAt) ensures Given(fleet, sim, e) {
      var k :| 0 <= k < |scenario.killAt| && e == Dies(scenario.killAt[k].0, scenario.killAt[k].1);
      assert scenario.killAt[k] in scenario.killAt;
    }
    var due := scenario.arrivals(i, sim.s.net);
    forall e | e in Deliveries(due) ensures Given(fleet, sim, e) {
      var k :| 0 <= k < |due| && e == Hears(due[k].0, due[k].1);
      assert due[k] in due;
    }
    forall e | e in Turns(order) ensures Given(fleet, sim, e) {
      assert e.robot in Elements(order);
    }
  }

  lemma FinishesAreGiven(fleet: Fleet, sim: Sim, now: real, hosts: seq<AgentId>)
    requires SimOk(fleet, sim, now) && Elements(hosts) == sim.executing.Keys
    ensures AllGiven(fleet, sim, Finishes(hosts))
  {
    forall e | e in Finishes(hosts) ensures Given(fleet, sim, e) {
      assert e.robot in Elements(hosts);
      assert RunsSafely(fleet.mission, sim, e.robot);
    }
  }

  /**
   One tick of the simulator: its agenda, then the executions under way by then,
   in the order `hosts` of the dictionary that holds them.
   */
  ghost predicate IsTick(fleet: Fleet, scenario: Scenario, order: seq<AgentId>, sim: Sim, now: real, i: nat,
                         hosts: seq<AgentId>, sim': Sim)
    requires SimOk(fleet, sim, now) && ValidScenario(fleet, scenario) && IsOrder(fleet, order)
    requires sim.injected <= |scenario.inject|
  {
    AgendaIsGiven(fleet, scenario, sim, order, now, i);
    var mid := Moves(fleet, scenario, sim, now, i, Agenda(scenario, order, sim, now, i));
    && NoDuplicates(hosts) && Elements(hosts) == mid.executing.Keys
    && sim' == (FinishesAreGiven(fleet, mid, now, hosts);
                Moves(fleet, scenario, mid, now, i, Finishes(hosts))
                .(injected := InjectedBy(scenario.inject, sim.injected, now)))
  }

  lemma InjectedIsOk(fleet: Fleet, sim: Sim, now: real, n: nat)
    requires SimOk(fleet, sim, now)
    ensures SimOk(fleet, sim.(injected := n), now)
  {
    forall r | r in sim.executing ensures RunsSafely(fleet.mission, sim.(injected := n), r) {
      assert RunsSafely(fleet.mission, sim, r);
    }
  }

  /** The robots with an execution under way, in some order. */
  method Hosts(executing: map<AgentId, Execution>) returns (hosts: seq<AgentId>)
    ensures NoDuplicates(hosts) && Elements(hosts) == executing.Keys
  {
    hosts := [];
    var todo := executing.Keys;
    while todo != {}
      invariant todo <= executing.Keys && NoDuplicates(hosts) && Elements(hosts) == executing.Keys - todo
    {
      var r :| r in todo;
      Sets.ElementsMore(hosts, r);
      assert r !in Elements(hosts);
      todo, hosts := todo - {r}, hosts + [r];
    }
  }

  /** One tick of the simulator. */
  method SimTick(fleet: Fleet, scenario: Scenario, order: seq<AgentId>, sim: Sim, now: real, i: nat)
    returns (sim': Sim, ghost hosts: seq<AgentId>)
    requires SimOk(fleet, sim, now) && ValidScenario(fleet, scenario) && IsOrder(fleet, order)
    requires sim.injected <= |scenario.inject|
    ensures IsTick(fleet, scenario, order, sim, now, i, hosts, sim')
  {
    AgendaIsGiven(fleet, scenario, sim, order, now, i);
    var mid := ReactAll(fleet, scenario, sim, now, i, Agenda(scenario, order, sim, now, i));
    var running := Hosts(mid.executing);
    FinishesAreGiven(fleet, mid, now, running);
    sim' := ReactAll(fleet, scenario, mid, now, i, Finishes(running));
    sim', hosts := sim'.(injected := InjectedBy(scenario.inject, sim.injected, now)), running;
  }

  // ------------------------------------------------------ the simulation

  /** A robot that knows some tasks and believes all of them complete. */
  predicate MissionComplete(p: Participant) {
    p.tasks != map[] && p.tasks.Keys <= p.completed.Keys
  }

  /** Python's `live and all(p.mission_complete for p in live)`. */
  predicate AllComplete(s: System) {
    && (exists r :: r in s.robots && r !in s.dead)
    && (forall r | r in s.robots && r !in s.dead :: MissionComplete(s.robots[r]))
  }

  /** Each robot in turn is told of the tasks of the initial mission. */
  function Briefing(order: seq<AgentId>, tasks: seq<Task>): seq<Event> {
    if order == [] then [] else Briefing(order[..|order| - 1], tasks) + BriefOne(order[|order| - 1], tasks)
  }

  function BriefOne(r: AgentId, tasks: seq<Task>): seq<Event> {
    seq(|tasks|, k requires 0 <= k < |tasks| => Learns(r, tasks[k]))
  }

  function Empty(fleet: Fleet): Sim {
    Sim(Init(fleet), map[], [], 0, false)
  }

  lemma EmptyIsOk(fleet: Fleet)
    requires fleet.Valid()
    ensures SimOk(fleet, Empty(fleet), 0.0)
  {
    InitIsSound(fleet);
    assert IsRun(fleet, []) && Execute(fleet, []) == Init(fleet);
  }

  lemma {:induction false} BriefingIsGiven(fleet: Fleet, order: seq<AgentId>, tasks: seq<Task>, sim: Sim)
    requires Invariant(fleet, sim.s) && (forall r | r in order :: r in fleet.settings)
    requires forall task | task in tasks :: InMission(fleet, task)
    ensures AllGiven(fleet, sim, Briefing(order, tasks))
  {
    if order != [] {
      var rest, last := order[..|order| - 1], order[|order| - 1];
      BriefingIsGiven(fleet, rest, tasks, sim);
      forall e | e in BriefOne(last, tasks) ensures Given(fleet, sim, e) {
        var k :| 0 <= k < |tasks| && e == Learns(last, tasks[k]);
        assert tasks[k] in tasks;
      }
    }
  }

  /** Everything a simulation is given. */
  datatype RawSetup = Setup(fleet: Fleet, scenario: Scenario, order: seq<AgentId>, tasks: seq<Task>) {
    ghost predicate Valid() {
      && ValidScenario(fleet, scenario) && IsOrder(fleet, order)
      && forall task | task in tasks :: InMission(fleet, task)
    }
  }

  /** A setup without robots. */
  ghost function EmptySetup(): RawSetup {
    Setup(Fleet(map[], map[]), Scenario(0.0, [], [], (r, t, now) => 0.0, (r, i) => t => 0.0, (i, net) => []), [], [])
  }

  type Setup = s: RawSetup | s.Valid() ghost witness EmptySetup()

  ghost function Loaded(setup: Setup): (sim: Sim)
    ensures SimOk(setup.fleet, sim, 0.0) && sim.injected == 0
  {
    EmptyIsOk(setup.fleet);
    LoadIsGiven(setup);
    Moves(setup.fleet, setup.scenario, Empty(setup.fleet), 0.0, 0, Briefing(setup.order, setup.tasks))
  }

  lemma LoadIsGiven(setup: Setup)
    ensures SimOk(setup.fleet, Empty(setup.fleet), 0.0)
    ensures AllGiven(setup.fleet, Empty(setup.fleet), Briefing(setup.order, setup.tasks))
  {
    EmptyIsOk(setup.fleet);
    forall r | r in setup.order ensures r in setup.fleet.settings {
      assert r in Elements(setup.order);
    }
    BriefingIsGiven(setup.fleet, setup.order, setup.tasks, Empty(setup.fleet));
  }

  function TimeOf(scenario: Scenario, i: nat): real {
    i as real * scenario.tickPeriod
  }

  /** State `sim'` after tick i follows from state `sim` before it. */
  ghost predicate TicksTo(setup: Setup, sim: Sim, i: nat, sim': Sim)
  {
    var now := TimeOf(setup.scenario, i);
    && SimOk(setup.fleet, sim, now) && sim.injected <= |setup.scenario.inject|
    && exists hosts :: IsTick(setup.fleet, setup.scenario, setup.order, sim, now, i, hosts, sim')
  }

  ghost function Ticking(setup: Setup): (Sim, nat, Sim) -> bool {
    (sim, i: nat, sim') => TicksTo(setup, sim, i, sim')
  }

  /** Each element follows from the one before it. */
  ghost predicate Linked<T(!new)>(s: seq<T>, link: (T, nat, T) -> bool) {
    forall i: nat {:trigger LinkedAt(s, link, i)} | i + 1 < |s| :: LinkedAt(s, link, i)
  }

  ghost predicate LinkedAt<T(!new)>(s: seq<T>, link: (T, nat, T) -> bool, i: nat)
    requires i + 1 < |s|
  {
    link(s[i], i, s[i + 1])
  }

  lemma LinkedGrows<T(!new)>(s: seq<T>, link: (T, nat, T) -> bool, x: T)
    requires s != [] && Linked(s, link) && link(s[|s| - 1], |s| - 1, x)
    ensures Linked(s + [x], link)
  {
    forall i: nat | i + 1 < |s + [x]| ensures LinkedAt(s + [x], link, i) {
      assert i + 1 < |s| ==> LinkedAt(s, link, i);
    }
  }

  /** The states of a simulation: after loading, and after each tick. */
  ghost predicate IsHistory(setup: Setup, history: seq<Sim>)
  {
    history != [] && history[0] == Loaded(setup) && Linked(history, Ticking(setup))
  }

  lemma TimePasses(scenario: Scenario, i: nat)
    requires scenario.tickPeriod >= 0.0
    ensures TimeOf(scenario, i) <= TimeOf(scenario, i + 1)
  {
    var x, period := i as real, scenario.tickPeriod;
    assert (i + 1) as real == x + 1.0;
    assert (x + 1.0) * period == x * period + period;
  }

  lemma TickKeepsOk(setup: Setup, sim: Sim, i: nat, sim': Sim)
    requires TicksTo(setup, sim, i, sim')
    ensures SimOk(setup.fleet, sim', TimeOf(setup.scenario, i)) && sim'.injected <= |setup.scenario.inject|
    ensures SimOk(setup.fleet, sim', TimeOf(setup.scenario, i + 1))
  {
    var now := TimeOf(setup.scenario, i);
    var hosts :| IsTick(setup.fleet, setup.scenario, setup.order, sim, now, i, hosts, sim');
    TickIsOk(setup.fleet, setup.scenario, setup.order, sim, now, i, hosts, sim');
    TimePasses(setup.scenario, i);
    SimOkLater(setup.fleet, sim', now, TimeOf(setup.scenario, i + 1));
  }

  lemma TickIsOk(fleet: Fleet, scenario: Scenario, order: seq<AgentId>, sim: Sim, now: real, i: nat,
                 hosts: seq<AgentId>, sim': Sim)
    requires SimOk(fleet, sim, now) && ValidScenario(fleet, scenario) && IsOrder(fleet, order)
    requires sim.injected <= |scenario.inject| && IsTick(fleet, scenario, order, sim, now, i, hosts, sim')
    ensures SimOk(fleet, sim', now) && sim'.injected <= |scenario.inject|
  {
    AgendaIsGiven(fleet, scenario, sim, order, now, i);
    var mid := Moves(fleet, scenario, sim, now, i, Agenda(scenario, order, sim, now, i));
    FinishesAreGiven(fleet, mid, now, hosts);
    InjectedIsOk(fleet, Moves(fleet, scenario, mid, now, i, Finishes(hosts)), now,
                 InjectedBy(scenario.inject, sim.injected, now));
  }

  /** The states that keep the promises after k ticks, about the time of the last one and about that of the next. */
  ghost function OkStates(setup: Setup, k: nat): iset<Sim> {
    iset sim |
      && SimOk(setup.fleet, sim, TimeOf(setup.scenario, k)) && sim.injected <= |setup.scenario.inject|
      && (k > 0 ==> SimOk(setup.fleet, sim, TimeOf(setup.scenario, k - 1)))
  }

  lemma LoadedIsOk(setup: Setup)
    ensures Loaded(setup) in OkStates(setup, 0)
  {
    assert TimeOf(setup.scenario, 0) == 0.0;
  }

  lemma TickedIsOk(setup: Setup, history: seq<Sim>, i: nat)
    requires i + 1 < |history| && LinkedAt(history, Ticking(setup), i)
    ensures history[i + 1] in OkStates(setup, i + 1)
  {
    TickKeepsOk(setup, history[i], i, history[i + 1]);
  }

  /** Every state of a simulation keeps the promises. */
  lemma HistoryIsOk(setup: Setup, history: seq<Sim>, k: nat)
    requires IsHistory(setup, history) && k < |history|
    ensures history[k] in OkStates(setup, k)
  {
    if k > 0 {
      TickedIsOk(setup, history, k - 1);
    } else {
      LoadedIsOk(setup);
    }
  }

  // ------------------------------------------------------ what holds in every simulation

  /** Every state of a simulation is the end of a run of the fleet. */
  lemma SimulationsAreRuns(setup: Setup, history: seq<Sim>, k: nat) returns (run: seq<Step>)
    requires IsHistory(setup, history) && k < |history|
    ensures IsRun(setup.fleet, run) && Execute(setup.fleet, run) == history[k].s
  {
    HistoryIsOk(setup, history, k);
    run :| IsRun(setup.fleet, run) && Execute(setup.fleet, run) == history[k].s;
  }

  /** At every tick the simulator's record of what a live robot executes is what the robot itself thinks. */
  lemma SimulatedHostsAgree(setup: Setup, history: seq<Sim>, k: nat, r: AgentId)
    requires IsHistory(setup, history) && k < |history| && Live(history[k].s, r)
    ensures history[k].s.robots[r].executing
            == if r in history[k].executing then Some(history[k].executing[r].task) else None
  {
    HistoryIsOk(setup, history, k);
    var run := SimulationsAreRuns(setup, history, k);
    HostsAgreeInEveryRun(setup.fleet, run, r);
    assert r in history[k].executing ==> RunsSafely(setup.fleet.mission, history[k], r);
  }

  /** At every tick a robot holds the best announcement it received or framed, and has seen no higher round. */
  lemma SimulatedAdoption(setup: Setup, history: seq<Sim>, k: nat, r: AgentId)
    requires IsHistory(setup, history) && k < |history| && r in setup.fleet.settings
    ensures var s := history[k].s;
            && r in s.robots && r in s.heard && Adopted(s.heard[r], s.robots[r].announcement)
            && s.robots[r].maxRoundSeen
               == if s.robots[r].announcement.Some? then s.robots[r].announcement.value.roundId else 0
  {
    var run := SimulationsAreRuns(setup, history, k);
    AdoptedIsLatest(setup.fleet, run, r);
  }

  /** Whatever has been executed, so have its prerequisites: by the time it started, and before it in the record. */
  lemma SimulatedOrder(setup: Setup, history: seq<Sim>, k: nat)
    requires IsHistory(setup, history) && k < |history|
    ensures ExecutedInOrder(setup.fleet.mission, history[k].executions)
  {
    HistoryIsOk(setup, history, k);
  }

  /** What a robot believes complete has been executed. */
  lemma BelievedIsExecuted(fleet: Fleet, sim: Sim, now: real, r: AgentId)
    requires SimOk(fleet, sim, now) && r in sim.s.robots && MissionComplete(sim.s.robots[r])
    ensures forall t | t in sim.s.robots[r].tasks :: FinishedBy(sim.executions, t, now)
  {
    assert SafeRobot(fleet.mission, sim.s.finished, sim.s.robots[r]);
  }

  /** Neither over nor stopped. */
  ghost predicate GoesOn(sim: Sim) {
    !sim.failed && !AllComplete(sim.s)
  }

  /** So is every state before the n-th, the first aside. */
  ghost predicate AllGoOn(history: seq<Sim>, n: nat)
    requires n <= |history|
  {
    forall k {:trigger GoesOn(history[k])} | 0 < k < n :: GoesOn(history[k])
  }

  /** The simulation stops at the first tick at which something raises or all live robots think the mission complete. */
  ghost predicate IsOutcome(setup: Setup, ticks: nat, history: seq<Sim>, missionTime: Option<real>)
  {
    && IsHistory(setup, history) && |history| <= ticks + 1
    && AllGoOn(history, |history| - 1)
    && var last := |history| - 1;
    && (missionTime.Some? ==>
          last > 0 && !history[last].failed && AllComplete(history[last].s)
          && missionTime.value == TimeOf(setup.scenario, last - 1))
    && (missionTime.None? ==> history[last].failed || (last == ticks && (last > 0 ==> GoesOn(history[last]))))
  }

  /** A reported mission time means that every task known to a live robot has been executed by then. */
  lemma MissionTimeIsReal(setup: Setup, ticks: nat, history: seq<Sim>, missionTime: real)
    requires IsOutcome(setup, ticks, history, Some(missionTime))
    ensures var sim := history[|history| - 1];
            && (exists r :: Live(sim.s, r))
            && forall r, t | Live(sim.s, r) && t in sim.s.robots[r].tasks :: FinishedBy(sim.executions, t, missionTime)
  {
    var last := |history| - 1;
    var sim := history[last];
    HistoryIsOk(setup, history, last);
    forall r, t | Live(sim.s, r) && t in sim.s.robots[r].tasks ensures FinishedBy(sim.executions, t, missionTime) {
      BelievedIsExecuted(setup.fleet, sim, missionTime, r);
    }
    var someone :| someone in sim.s.robots && someone !in sim.s.dead;
    assert Live(sim.s, someone);
  }

  method Load(setup: Setup) returns (sim: Sim)
    ensures sim == Loaded(setup)
  {
    LoadIsGiven(setup);
    sim := ReactAll(setup.fleet, setup.scenario, Empty(setup.fleet), 0.0, 0, Briefing(setup.order, setup.tasks));
  }

  lemma HistoryGoesOn(setup: Setup, history: seq<Sim>, sim: Sim)
    requires IsHistory(setup, history) && TicksTo(setup, history[|history| - 1], |history| - 1, sim)
    ensures IsHistory(setup, history + [sim])
  {
    LinkedGrows(history, Ticking(setup), sim);
  }

  /** One more tick of a simulation. */
  method Continue(setup: Setup, sim: Sim, i: nat, ghost history: seq<Sim>) returns (sim': Sim, ghost history': seq<Sim>)
    requires IsHistory(setup, history) && |history| == i + 1 && sim == history[i]
    ensures IsHistory(setup, history') && history' == history + [sim']
  {
    HistoryIsOk(setup, history, i);
    ghost var hosts;
    sim', hosts := SimTick(setup.fleet, setup.scenario, setup.order, sim, TimeOf(setup.scenario, i), i);
    assert TicksTo(setup, sim, i, sim');
    history' := history + [sim'];
    HistoryGoesOn(setup, history, sim');
  }

  /** Run the mission for so many ticks, or until it is complete. */
  method Run(setup: Setup, ticks: nat) returns (missionTime: Option<real>, sim: Sim, ghost history: seq<Sim>)
    ensures IsOutcome(setup, ticks, history, missionTime) && sim == history[|history| - 1]
    ensures missionTime.Some? ==> missionTime.value == (|history| - 2) as real * setup.scenario.tickPeriod
  {
    sim := Load(setup);
    history := [sim];
    for i := 0 to ticks
      invariant IsHistory(setup, history) && |history| == i + 1 && sim == history[i]
      invariant AllGoOn(history, i + 1)
    {
      sim, history := Continue(setup, sim, i, history);
      if sim.failed {
        return None, sim, history;
      }
      if AllComplete(sim.s) {
        return Some(TimeOf(setup.scenario, i)), sim, history;
      }
    }
    missionTime := None;
  }
}
