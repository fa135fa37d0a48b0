/**
 A simulation from the point of view of one robot: what a tick of the simulator
 makes of it depends on its kills, the tasks injected and the messages that
 arrive for it, and on nothing else that happens in the tick.
 */
module RobotDays {
  import opened Types
  import opened Messages
  import opened Participation
  import opened Coordination
  import opened FleetRuns
  import opened RobotLives
  import opened FleetLives
  import opened SystemSims

  /** How a robot stands: dead or not, what its host executes and has executed, and whether anything raised. */
  datatype Standing = Standing(dead: bool, p: Participant, work: Option<Execution>, record: seq<Execution>,
                               raised: bool)

  /** The executions of `r`, in order. */
  function RecordOf(executions: seq<Execution>, r: AgentId): seq<Execution> {
    if executions == [] then []
    else
      var rest, last := RecordOf(executions[..|executions| - 1], r), executions[|executions| - 1];
      if last.robot == r then rest + [last] else rest
  }

  function WorkIn(executing: map<AgentId, Execution>, r: AgentId): Option<Execution> {
    if r in executing then Some(executing[r]) else None
  }

  function StandingOf(sim: Sim, r: AgentId): Standing
    requires r in sim.s.robots
  {
    Standing(r in sim.s.dead, sim.s.robots[r], WorkIn(sim.executing, r), RecordOf(sim.executions, r), sim.failed)
  }

  /** The work in hand after a tick: what was dispatched, begun now, or unless aborted what was in hand before. */
  function NextWork(scenario: Scenario, work: Option<Execution>, r: AgentId, p: Participant,
                    now: real): Option<Execution>
  {
    if p.dispatches != [] then
      var t := p.dispatches[|p.dispatches| - 1];
      Some(Execution(t, r, now, now + scenario.busy(r, t, now)))
    else if p.aborts != [] then None
    else work
  }

  /** What an event that is about the robot makes of it. */
  ghost function Met(c: Settings, scenario: Scenario, x: Standing, now: real, i: nat, e: Event): (y: Standing)
    requires Workable(x.p)
    ensures Workable(y.p)
  {
    match e
    case Dies(_, time) => if !x.dead && now >= time then x.(dead := true, work := None) else x
    case Learns(_, task) =>
      if x.dead then x else x.(p := After(c, x.p, Act.Hears(TaskInjected(task, now), now, scenario.benefit(c.id, i))))
    case Hears(_, m) => if x.dead then x else x.(p := After(c, x.p, Act.Hears(m, now, scenario.benefit(c.id, i))))
    case Ticks(_) => if x.dead then x else MetTurn(c, scenario, x, now, i)
    case Reports(_) =>
      if x.work.Some? && now >= x.work.value.finish then
        x.(p := After(c, x.p, Finishes(x.work.value.task, now)), work := None, record := x.record + [x.work.value])
      else x
  }

  /** What its turn makes of a live robot. */
  ghost function MetTurn(c: Settings, scenario: Scenario, x: Standing, now: real, i: nat): (y: Standing)
    requires Workable(x.p)
    ensures Workable(y.p)
  {
    var benefit := scenario.benefit(c.id, i);
    if TickRaises(c, x.p, now) then x.(raised := true)
    else x.(p := After(c, x.p, Act.Ticks(now, benefit)),
            work := NextWork(scenario, x.work, c.id, Tick(c, x.p, now, benefit).next, now))
  }

  // ------------------------------------------------------ one event

  lemma RecordGrows(executions: seq<Execution>, x: Execution, r: AgentId)
    ensures RecordOf(executions + [x], r) == RecordOf(executions, r) + if x.robot == r then [x] else []
  {
    assert (executions + [x])[..|executions|] == executions;
  }

  /** What the event is to the robot it is about, if it is due. */
  ghost function ActOfEvent(scenario: Scenario, sim: Sim, now: real, i: nat, e: Event): Option<Act>
    requires e.Reports? ==> e.robot in sim.s.host
  {
    match e
    case Dies(r, time) => None
    case Learns(r, task) => Some(Act.Hears(TaskInjected(task, now), now, scenario.benefit(r, i)))
    case Hears(r, m) => Some(Act.Hears(m, now, scenario.benefit(r, i)))
    case Ticks(r) => Some(Act.Ticks(now, scenario.benefit(r, i)))
    case Reports(r) => Some(Finishes(sim.s.host[r], now))
  }

  lemma EventIsAct(scenario: Scenario, sim: Sim, now: real, i: nat, e: Event, r: AgentId)
    requires e.Reports? ==> e.robot in sim.s.host
    ensures ActOf(sim.s, StepOf(scenario, now, i, e), r)
            == if e.robot == r then ActOfEvent(scenario, sim, now, i, e) else None
  {
  }

  /** What has become of the robot. */
  lemma MovedRobot(fleet: Fleet, scenario: Scenario, sim: Sim, now: real, i: nat, e: Event, r: AgentId)
    requires SimOk(fleet, sim, now) && Given(fleet, sim, e) && IsDue(sim, now, e) && !Raises(fleet, sim, now, e)
    requires r in sim.s.robots
    ensures e.Reports? ==> e.robot in sim.s.host
    ensures r in Moved(fleet, scenario, sim, now, i, e).s.robots && r in fleet.settings && Workable(sim.s.robots[r])
    ensures Moved(fleet, scenario, sim, now, i, e).s.robots[r]
            == if e.robot == r && !e.Dies?
               then After(fleet.settings[r], sim.s.robots[r], ActOfEvent(scenario, sim, now, i, e).value)
               else sim.s.robots[r]
  {
    var step := StepOf(scenario, now, i, e);
    DueIsEnabled(fleet, scenario, sim, now, i, e);
    StepIsAct(fleet, sim.s, step, r);
    EventIsAct(scenario, sim, now, i, e, r);
  }

  /** Executions under way are filed under the robot they belong to. */
  ghost predicate FiledIn(executing: map<AgentId, Execution>) {
    forall r | r in executing :: executing[r].robot == r
  }

  lemma UpdatedWork(scenario: Scenario, executing: map<AgentId, Execution>, q: AgentId, p: Participant, now: real,
                    r: AgentId)
    requires FiledIn(executing)
    ensures var executing' := HostUpdate(scenario, executing, q, p, now);
            && WorkIn(executing', r) == (if q == r then NextWork(scenario, WorkIn(executing, r), r, p, now)
                                         else WorkIn(executing, r))
            && FiledIn(executing')
  {
  }

  /** What has become of the work in hand. */
  ghost function WorkMet(fleet: Fleet, scenario: Scenario, sim: Sim, now: real, i: nat, e: Event): Option<Execution>
    requires SimOk(fleet, sim, now) && Given(fleet, sim, e) && !Raises(fleet, sim, now, e)
  {
    assert SafeRobot(fleet.mission, sim.s.finished, sim.s.robots[e.robot]);
    match e
    case Dies(r, time) => None
    case Reports(r) => None
    case Ticks(r) =>
      NextWork(scenario, WorkIn(sim.executing, r), r,
               Tick(fleet.settings[r], sim.s.robots[r], now, scenario.benefit(r, i)).next, now)
    case _ => WorkIn(sim.executing, e.robot)
  }

  lemma MovedWork(fleet: Fleet, scenario: Scenario, sim: Sim, now: real, i: nat, e: Event, r: AgentId)
    requires SimOk(fleet, sim, now) && Given(fleet, sim, e) && IsDue(sim, now, e) && !Raises(fleet, sim, now, e)
    requires FiledIn(sim.executing)
    ensures FiledIn(Moved(fleet, scenario, sim, now, i, e).executing)
    ensures WorkIn(Moved(fleet, scenario, sim, now, i, e).executing, r)
            == if e.robot == r then WorkMet(fleet, scenario, sim, now, i, e) else WorkIn(sim.executing, r)
  {
    if e.Ticks? {
      TurnWork(fleet, scenario, sim, now, i, e, r);
    } else {
      assert Moved(fleet, scenario, sim, now, i, e).executing
          == if e.Dies? || e.Reports? then sim.executing - {e.robot} else sim.executing;
    }
  }

  lemma TurnWork(fleet: Fleet, scenario: Scenario, sim: Sim, now: real, i: nat, e: Event, r: AgentId)
    requires SimOk(fleet, sim, now) && Given(fleet, sim, e) && IsDue(sim, now, e) && !Raises(fleet, sim, now, e)
    requires FiledIn(sim.executing) && e.Ticks?
    ensures FiledIn(Moved(fleet, scenario, sim, now, i, e).executing)
    ensures WorkIn(Moved(fleet, scenario, sim, now, i, e).executing, r)
            == if e.robot == r then WorkMet(fleet, scenario, sim, now, i, e) else WorkIn(sim.executing, r)
  {
    assert SafeRobot(fleet.mission, sim.s.finished, sim.s.robots[e.robot]);
    UpdatedWork(scenario, sim.executing, e.robot,
                Tick(fleet.settings[e.robot], sim.s.robots[e.robot], now, scenario.benefit(e.robot, i)).next, now, r);
  }

  /** Only kills kill. */
  lemma MovedDead(fleet: Fleet, scenario: Scenario, sim: Sim, now: real, i: nat, e: Event)
    requires SimOk(fleet, sim, now) && Given(fleet, sim, e) && IsDue(sim, now, e) && !Raises(fleet, sim, now, e)
    ensures Moved(fleet, scenario, sim, now, i, e).s.dead == if e.Dies? then sim.s.dead + {e.robot} else sim.s.dead
  {
    DueIsEnabled(fleet, scenario, sim, now, i, e);
    StepDead(fleet, sim.s, StepOf(scenario, now, i, e));
  }

  /** Only reports go on record. */
  lemma MovedRecord(fleet: Fleet, scenario: Scenario, sim: Sim, now: real, i: nat, e: Event)
    requires SimOk(fleet, sim, now) && Given(fleet, sim, e) && IsDue(sim, now, e) && !Raises(fleet, sim, now, e)
    ensures var sim' := Moved(fleet, scenario, sim, now, i, e);
            && sim'.executions == (if e.Reports? then sim.executions + [sim.executing[e.robot]] else sim.executions)
            && sim'.failed == sim.failed
  {
  }

  lemma StepDead(fleet: Fleet, s: System, step: Step)
    requires Invariant(fleet, s) && Enabled(fleet, s, step)
    ensures Apply(fleet, s, step).dead == if step.Kill? then s.dead + {step.robot} else s.dead
  {
  }

  /** An event about another robot is none to this one. */
  lemma OtherUnmoved(fleet: Fleet, scenario: Scenario, sim: Sim, now: real, i: nat, e: Event, r: AgentId)
    requires SimOk(fleet, sim, now) && Given(fleet, sim, e) && IsDue(sim, now, e) && !Raises(fleet, sim, now, e)
    requires FiledIn(sim.executing) && r in sim.s.robots && r in fleet.settings && Workable(sim.s.robots[r])
    requires e.robot != r
    ensures var sim' := Moved(fleet, scenario, sim, now, i, e);
            r in sim'.s.robots && StandingOf(sim', r) == StandingOf(sim, r)
  {
    MovedRobot(fleet, scenario, sim, now, i, e, r);
    MovedWork(fleet, scenario, sim, now, i, e, r);
    MovedDead(fleet, scenario, sim, now, i, e);
    MovedRecord(fleet, scenario, sim, now, i, e);
    if e.Reports? {
      RecordGrows(sim.executions, sim.executing[e.robot], r);
    }
  }

  lemma DeathMeets(fleet: Fleet, scenario: Scenario, sim: Sim, now: real, i: nat, e: Event, r: AgentId)
    requires SimOk(fleet, sim, now) && Given(fleet, sim, e) && IsDue(sim, now, e) && !Raises(fleet, sim, now, e)
    requires FiledIn(sim.executing) && r in sim.s.robots && r in fleet.settings && Workable(sim.s.robots[r])
    requires e.robot == r && e.Dies?
    ensures var sim' := Moved(fleet, scenario, sim, now, i, e);
            r in sim'.s.robots && StandingOf(sim', r) == Met(fleet.settings[r], scenario, StandingOf(sim, r), now, i, e)
  {
    MovedRobot(fleet, scenario, sim, now, i, e, r);
    MovedWork(fleet, scenario, sim, now, i, e, r);
    MovedDead(fleet, scenario, sim, now, i, e);
    MovedRecord(fleet, scenario, sim, now, i, e);
  }

  lemma NewsMeets(fleet: Fleet, scenario: Scenario, sim: Sim, now: real, i: nat, e: Event, r: AgentId)
    requires SimOk(fleet, sim, now) && Given(fleet, sim, e) && IsDue(sim, now, e) && !Raises(fleet, sim, now, e)
    requires FiledIn(sim.executing) && r in sim.s.robots && r in fleet.settings && Workable(sim.s.robots[r])
    requires e.robot == r && (e.Learns? || e.Hears?)
    ensures var sim' := Moved(fleet, scenario, sim, now, i, e);
            r in sim'.s.robots && StandingOf(sim', r) == Met(fleet.settings[r], scenario, StandingOf(sim, r), now, i, e)
  {
    MovedRobot(fleet, scenario, sim, now, i, e, r);
    MovedWork(fleet, scenario, sim, now, i, e, r);
    MovedDead(fleet, scenario, sim, now, i, e);
    MovedRecord(fleet, scenario, sim, now, i, e);
  }

  lemma TurnMeets(fleet: Fleet, scenario: Scenario, sim: Sim, now: real, i: nat, e: Event, r: AgentId)
    requires SimOk(fleet, sim, now) && Given(fleet, sim, e) && IsDue(sim, now, e) && !Raises(fleet, sim, now, e)
    requires FiledIn(sim.executing) && r in sim.s.robots && r in fleet.settings && Workable(sim.s.robots[r])
    requires e.robot == r && e.Ticks?
    ensures var sim' := Moved(fleet, scenario, sim, now, i, e);
            r in sim'.s.robots && StandingOf(sim', r) == Met(fleet.settings[r], scenario, StandingOf(sim, r), now, i, e)
  {
    MovedRobot(fleet, scenario, sim, now, i, e, r);
    MovedWork(fleet, scenario, sim, now, i, e, r);
    MovedDead(fleet, scenario, sim, now, i, e);
    MovedRecord(fleet, scenario, sim, now, i, e);
  }

  lemma ReportMeets(fleet: Fleet, scenario: Scenario, sim: Sim, now: real, i: nat, e: Event, r: AgentId)
    requires SimOk(fleet, sim, now) && Given(fleet, sim, e) && IsDue(sim, now, e) && !Raises(fleet, sim, now, e)
    requires FiledIn(sim.executing) && r in sim.s.robots && r in fleet.settings && Workable(sim.s.robots[r])
    requires e.robot == r && e.Reports?
    ensures var sim' := Moved(fleet, scenario, sim, now, i, e);
            r in sim'.s.robots && StandingOf(sim', r) == Met(fleet.settings[r], scenario, StandingOf(sim, r), now, i, e)
  {
    MovedRobot(fleet, scenario, sim, now, i, e, r);
    MovedWork(fleet, scenario, sim, now, i, e, r);
    MovedDead(fleet, scenario, sim, now, i, e);
    MovedRecord(fleet, scenario, sim, now, i, e);
    RecordGrows(sim.executions, sim.executing[r], r);
    assert RunsSafely(fleet.mission, sim, r);
  }

  /** What an event that is due makes of a robot. */
  lemma MovedMeets(fleet: Fleet, scenario: Scenario, sim: Sim, now: real, i: nat, e: Event, r: AgentId)
    requires SimOk(fleet, sim, now) && Given(fleet, sim, e) && IsDue(sim, now, e) && !Raises(fleet, sim, now, e)
    requires FiledIn(sim.executing) && r in sim.s.robots && r in fleet.settings && Workable(sim.s.robots[r])
    ensures var sim' := Moved(fleet, scenario, sim, now, i, e);
            r in sim'.s.robots && FiledIn(sim'.executing)
            && StandingOf(sim', r)
               == if e.robot == r then Met(fleet.settings[r], scenario, StandingOf(sim, r), now, i, e)
                  else StandingOf(sim, r)
  {
    MovedWork(fleet, scenario, sim, now, i, e, r);
    if e.robot != r {
      OtherUnmoved(fleet, scenario, sim, now, i, e, r);
    } else {
      match e
      case Dies(_, time) => DeathMeets(fleet, scenario, sim, now, i, e, r);
      case Learns(_, task) => NewsMeets(fleet, scenario, sim, now, i, e, r);
      case Hears(_, m) => NewsMeets(fleet, scenario, sim, now, i, e, r);
      case Ticks(_) => TurnMeets(fleet, scenario, sim, now, i, e, r);
      case Reports(_) => ReportMeets(fleet, scenario, sim, now, i, e, r);
    }
  }

  lemma NotDueMeets(c: Settings, scenario: Scenario, sim: Sim, now: real, i: nat, e: Event)
    requires e.robot in sim.s.robots && Workable(sim.s.robots[e.robot]) && !IsDue(sim, now, e)
    ensures Met(c, scenario, StandingOf(sim, e.robot), now, i, e) == StandingOf(sim, e.robot)
  {
  }

  /** The simulation is sound, and this robot has what ticks need. */
  ghost predicate Tracks(fleet: Fleet, sim: Sim, now: real, r: AgentId) {
    && SimOk(fleet, sim, now) && FiledIn(sim.executing)
    && r in fleet.settings && fleet.settings[r].id == r && r in sim.s.robots && Workable(sim.s.robots[r])
  }

  lemma IsTracked(fleet: Fleet, sim: Sim, now: real, r: AgentId)
    requires SimOk(fleet, sim, now) && FiledIn(sim.executing) && r in fleet.settings
    ensures Tracks(fleet, sim, now, r)
  {
    assert r in sim.s.robots;
    assert SafeRobot(fleet.mission, sim.s.finished, sim.s.robots[r]);
  }

  /** What an event makes of a robot, as long as nothing raises. */
  lemma MoveMeets(fleet: Fleet, scenario: Scenario, sim: Sim, now: real, i: nat, e: Event, r: AgentId)
    requires Tracks(fleet, sim, now, r) && Given(fleet, sim, e) && !Move(fleet, scenario, sim, now, i, e).failed
    ensures var sim' := Move(fleet, scenario, sim, now, i, e);
            Tracks(fleet, sim', now, r)
            && StandingOf(sim', r)
               == if e.robot == r then Met(fleet.settings[r], scenario, StandingOf(sim, r), now, i, e)
                  else StandingOf(sim, r)
  {
    MoveKeepsSim(fleet, scenario, sim, now, i, e);
    if IsDue(sim, now, e) {
      MovedMeets(fleet, scenario, sim, now, i, e, r);
      IsTracked(fleet, Move(fleet, scenario, sim, now, i, e), now, r);
    } else if e.robot == r {
      NotDueMeets(fleet.settings[r], scenario, sim, now, i, e);
    }
  }

  // ------------------------------------------------------ many events

  /** What these events, all about the robot, make of it. */
  ghost function MetAll(c: Settings, scenario: Scenario, x: Standing, now: real, i: nat,
                        events: seq<Event>): (y: Standing)
    requires Workable(x.p)
    ensures Workable(y.p)
  {
    if events == [] then x
    else Met(c, scenario, MetAll(c, scenario, x, now, i, events[..|events| - 1]), now, i, events[|events| - 1])
  }

  /** The events about robot `r`. */
  function Own(events: seq<Event>, r: AgentId): seq<Event> {
    if events == [] then []
    else
      var rest, last := Own(events[..|events| - 1], r), events[|events| - 1];
      if last.robot == r then rest + [last] else rest
  }

  lemma OneMoreOwn(c: Settings, scenario: Scenario, x: Standing, now: real, i: nat, events: seq<Event>, e: Event)
    requires Workable(x.p)
    ensures MetAll(c, scenario, x, now, i, events + [e])
            == Met(c, scenario, MetAll(c, scenario, x, now, i, events), now, i, e)
  {
    assert (events + [e])[..|events|] == events;
  }

  /** Nothing but its own events changes a robot. */
  lemma {:induction false} MovesMeet(fleet: Fleet, scenario: Scenario, sim: Sim, now: real, i: nat, events: seq<Event>,
                                     r: AgentId)
    requires Tracks(fleet, sim, now, r) && AllGiven(fleet, sim, events)
    requires !Moves(fleet, scenario, sim, now, i, events).failed
    ensures var sim' := Moves(fleet, scenario, sim, now, i, events);
            Tracks(fleet, sim', now, r)
            && StandingOf(sim', r)
               == MetAll(fleet.settings[r], scenario, StandingOf(sim, r), now, i, Own(events, r))
    decreases |events|
  {
    if events != [] {
      var rest, last := events[..|events| - 1], events[|events| - 1];
      var before := Moves(fleet, scenario, sim, now, i, rest);
      StillGiven(fleet, sim, before, events);
      MovesMeet(fleet, scenario, sim, now, i, rest, r);
      MoveMeets(fleet, scenario, before, now, i, last, r);
      OneMoreOwn(fleet.settings[r], scenario, StandingOf(sim, r), now, i, Own(rest, r), last);
    }
  }
}
