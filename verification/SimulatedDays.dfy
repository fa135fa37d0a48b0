/**
 What one tick of a simulation makes of each robot: it dies when its kill is due,
 and otherwise hears its news, has its turn, and reports work that is due.
 */
module SimulatedDays {
  import opened Types
  import opened Messages
  import opened Participation
  import opened FleetRuns
  import opened RobotLives
  import opened SystemSims
  import opened RobotDays
  import opened Agendas

  // ------------------------------------------------------ failures last, and executions stay filed

  lemma {:induction false} FailureLasts(fleet: Fleet, scenario: Scenario, sim: Sim, now: real, i: nat,
                                        events: seq<Event>)
    requires SimOk(fleet, sim, now) && AllGiven(fleet, sim, events) && sim.failed
    ensures Moves(fleet, scenario, sim, now, i, events) == sim
    decreases |events|
  {
    if events != [] {
      FailureLasts(fleet, scenario, sim, now, i, events[..|events| - 1]);
    }
  }

  /** Executions are filed under their robots, and on record for robots of the fleet only. */
  ghost predicate Filed(fleet: Fleet, sim: Sim) {
    FiledIn(sim.executing) && forall x | x in sim.executions :: x.robot in fleet.settings
  }

  lemma MoveFiles(fleet: Fleet, scenario: Scenario, sim: Sim, now: real, i: nat, e: Event)
    requires SimOk(fleet, sim, now) && Given(fleet, sim, e) && Filed(fleet, sim)
    ensures Filed(fleet, Move(fleet, scenario, sim, now, i, e))
  {
    if !sim.failed && IsDue(sim, now, e) && !Raises(fleet, sim, now, e) {
      MovedWork(fleet, scenario, sim, now, i, e, e.robot);
      MovedRecord(fleet, scenario, sim, now, i, e);
    }
  }

  lemma {:induction false} MovesFile(fleet: Fleet, scenario: Scenario, sim: Sim, now: real, i: nat, events: seq<Event>)
    requires SimOk(fleet, sim, now) && AllGiven(fleet, sim, events) && Filed(fleet, sim)
    ensures Filed(fleet, Moves(fleet, scenario, sim, now, i, events))
    decreases |events|
  {
    if events != [] {
      var rest, last := events[..|events| - 1], events[|events| - 1];
      var before := Moves(fleet, scenario, sim, now, i, rest);
      StillGiven(fleet, sim, before, events);
      MovesFile(fleet, scenario, sim, now, i, rest);
      MoveFiles(fleet, scenario, before, now, i, last);
    }
  }

  // ------------------------------------------------------ one tick for one robot

  /**
   A live robot `x` hears `messages` and has its turn, which begins new work or
   keeps or drops what is in hand; work in hand that is due by now is reported.
   */
  ghost predicate LivesThrough(c: Settings, scenario: Scenario, now: real, i: nat, messages: seq<Message>, x: Standing,
                               y: Standing)
    requires Workable(x.p)
  {
    var benefit := scenario.benefit(c.id, i);
    var p := Informed(c, scenario, x, now, i, messages).p;
    && !TickRaises(c, p, now)
    && var q := After(c, p, Act.Ticks(now, benefit));
    var work := NextWork(scenario, x.work, c.id, Tick(c, p, now, benefit).next, now);
    if work.Some? && work.value.finish <= now then
      y == Standing(false, After(c, q, Finishes(work.value.task, now)), None, x.record + [work.value], false)
    else
      y == Standing(false, q, work, x.record, false)
  }

  /** What a tick makes of a robot. */
  ghost predicate Passes(c: Settings, scenario: Scenario, now: real, i: nat, messages: seq<Message>, x: Standing,
                         y: Standing)
    requires Workable(x.p)
  {
    if x.dead || KilledBy(scenario.killAt, c.id, now) then y == Killed(x)
    else LivesThrough(c, scenario, now, i, messages, x, y)
  }

  /** The turn and the report, if nothing raises. */
  lemma TurnThenReport(c: Settings, scenario: Scenario, x: Standing, now: real, i: nat, messages: seq<Message>)
    requires Workable(x.p) && !x.dead && !x.raised
    ensures var m := MetTurn(c, scenario, Informed(c, scenario, x, now, i, messages), now, i);
            !m.raised ==> LivesThrough(c, scenario, now, i, messages, x,
                                       Met(c, scenario, m, now, i, Event.Reports(c.id)))
  {
  }

  lemma OwnReport(hosts: seq<AgentId>, r: AgentId)
    requires NoDuplicates(hosts)
    ensures Own(SystemSims.Finishes(hosts), r) == if r in hosts then [Reports(r)] else []
  {
    if r in hosts {
      var k: nat :| k < |hosts| && hosts[k] == r;
      OwnOfEach(SystemSims.Finishes(hosts), hosts, r, k);
    } else {
      OwnOfEach(SystemSims.Finishes(hosts), hosts, r, |hosts|);
    }
  }

  /** The hosts are asked in any order, and those with nothing in hand need not be asked. */
  lemma ReportsMeet(c: Settings, scenario: Scenario, m: Standing, now: real, i: nat, hosts: seq<AgentId>)
    requires Workable(m.p) && NoDuplicates(hosts) && (c.id in hosts <==> m.work.Some?)
    ensures MetAll(c, scenario, m, now, i, Own(SystemSims.Finishes(hosts), c.id))
            == Met(c, scenario, m, now, i, Event.Reports(c.id))
  {
    OwnReport(hosts, c.id);
    OneMoreOwn(c, scenario, m, now, i, [], Event.Reports(c.id));
    assert [] + [Event.Reports(c.id)] == [Event.Reports(c.id)];
  }

  /** The middle of a tick: the agenda is through, executions have not been looked at. */
  lemma MorningPasses(fleet: Fleet, scenario: Scenario, order: seq<AgentId>, sim: Sim, now: real, i: nat, r: AgentId)
    requires Tracks(fleet, sim, now, r) && ValidScenario(fleet, scenario) && IsOrder(fleet, order)
    requires sim.injected <= |scenario.inject| && AllGiven(fleet, sim, Agenda(scenario, order, sim, now, i))
    requires !Moves(fleet, scenario, sim, now, i, Agenda(scenario, order, sim, now, i)).failed
    ensures var mid := Moves(fleet, scenario, sim, now, i, Agenda(scenario, order, sim, now, i));
            var x, c := StandingOf(sim, r), fleet.settings[r];
            && Tracks(fleet, mid, now, r)
            && StandingOf(mid, r)
               == if x.dead || KilledBy(scenario.killAt, r, now) then Killed(x)
                  else MetTurn(c, scenario,
                               Informed(c, scenario, x, now, i,
                                        News(scenario, sim, now, i, r,
                                             InjectedBy(scenario.inject, sim.injected, now))), now, i)
  {
    var c := fleet.settings[r];
    assert r in Elements(order);
    DeadHaveNoWork(fleet, sim, now, r);
    MovesMeet(fleet, scenario, sim, now, i, Agenda(scenario, order, sim, now, i), r);
    AgendaMeets(c, scenario, StandingOf(sim, r), now, i, order, sim);
  }

  lemma DeadHaveNoWork(fleet: Fleet, sim: Sim, now: real, r: AgentId)
    requires SimOk(fleet, sim, now) && r in sim.s.robots
    ensures StandingOf(sim, r).dead ==> StandingOf(sim, r).work.None?
  {
    assert r in sim.executing ==> RunsSafely(fleet.mission, sim, r);
  }

  /** Then executions are looked at. */
  lemma EveningPasses(fleet: Fleet, scenario: Scenario, mid: Sim, now: real, i: nat, hosts: seq<AgentId>, r: AgentId)
    requires Tracks(fleet, mid, now, r) && NoDuplicates(hosts) && Elements(hosts) == mid.executing.Keys
    requires AllGiven(fleet, mid, SystemSims.Finishes(hosts))
    requires !Moves(fleet, scenario, mid, now, i, SystemSims.Finishes(hosts)).failed
    ensures var sim' := Moves(fleet, scenario, mid, now, i, SystemSims.Finishes(hosts));
            && Tracks(fleet, sim', now, r)
            && StandingOf(sim', r)
               == Met(fleet.settings[r], scenario, StandingOf(mid, r), now, i, Event.Reports(r))
  {
    assert r in hosts <==> r in Elements(hosts);
    MovesMeet(fleet, scenario, mid, now, i, SystemSims.Finishes(hosts), r);
    ReportsMeet(fleet.settings[r], scenario, StandingOf(mid, r), now, i, hosts);
  }

  lemma KilledReportsNothing(c: Settings, scenario: Scenario, x: Standing, now: real, i: nat)
    requires Workable(x.p)
    ensures Met(c, scenario, Killed(x), now, i, Event.Reports(c.id)) == Killed(x)
  {
  }

  /** The same robot, whatever is noted about injections. */
  lemma InjectionsChangeNoRobot(fleet: Fleet, sim: Sim, now: real, n: nat, r: AgentId)
    requires Tracks(fleet, sim, now, r)
    ensures Tracks(fleet, sim.(injected := n), now, r) && StandingOf(sim.(injected := n), r) == StandingOf(sim, r)
  {
    InjectedIsOk(fleet, sim, now, n);
  }

  /** What a tick makes of robot `r`, unless something raises. */
  lemma TickPasses(fleet: Fleet, scenario: Scenario, order: seq<AgentId>, sim: Sim, now: real, i: nat,
                   hosts: seq<AgentId>, sim': Sim, r: AgentId)
    requires Tracks(fleet, sim, now, r) && ValidScenario(fleet, scenario) && IsOrder(fleet, order)
    requires sim.injected <= |scenario.inject| && IsTick(fleet, scenario, order, sim, now, i, hosts, sim')
    requires !sim'.failed && !sim.failed
    ensures sim.injected <= sim'.injected <= |scenario.inject|
    ensures Tracks(fleet, sim', now, r)
    ensures Passes(fleet.settings[r], scenario, now, i, News(scenario, sim, now, i, r, sim'.injected),
                   StandingOf(sim, r), StandingOf(sim', r))
  {
    var c, x := fleet.settings[r], StandingOf(sim, r);
    AgendaIsGiven(fleet, scenario, sim, order, now, i);
    var mid := Moves(fleet, scenario, sim, now, i, Agenda(scenario, order, sim, now, i));
    FinishesAreGiven(fleet, mid, now, hosts);
    if mid.failed {
      FailureLasts(fleet, scenario, mid, now, i, SystemSims.Finishes(hosts));
    }
    MorningPasses(fleet, scenario, order, sim, now, i, r);
    EveningPasses(fleet, scenario, mid, now, i, hosts, r);
    InjectionsChangeNoRobot(fleet, Moves(fleet, scenario, mid, now, i, SystemSims.Finishes(hosts)), now, sim'.injected,
                            r);
    KilledReportsNothing(c, scenario, x, now, i);
    if !x.dead && !KilledBy(scenario.killAt, r, now) {
      TurnThenReport(c, scenario, x, now, i, News(scenario, sim, now, i, r, sim'.injected));
    }
  }

  lemma TickFiles(fleet: Fleet, scenario: Scenario, order: seq<AgentId>, sim: Sim, now: real, i: nat,
                  hosts: seq<AgentId>, sim': Sim)
    requires SimOk(fleet, sim, now) && Filed(fleet, sim) && ValidScenario(fleet, scenario) && IsOrder(fleet, order)
    requires sim.injected <= |scenario.inject| && IsTick(fleet, scenario, order, sim, now, i, hosts, sim')
    ensures Filed(fleet, sim') && (sim.failed ==> sim'.failed)
  {
    AgendaIsGiven(fleet, scenario, sim, order, now, i);
    var mid := Moves(fleet, scenario, sim, now, i, Agenda(scenario, order, sim, now, i));
    FinishesAreGiven(fleet, mid, now, hosts);
    MovesFile(fleet, scenario, sim, now, i, Agenda(scenario, order, sim, now, i));
    MovesFile(fleet, scenario, mid, now, i, SystemSims.Finishes(hosts));
    if sim.failed {
      FailureLasts(fleet, scenario, sim, now, i, Agenda(scenario, order, sim, now, i));
      FailureLasts(fleet, scenario, mid, now, i, SystemSims.Finishes(hosts));
    }
  }

  // ------------------------------------------------------ the states of a simulation

  lemma {:induction false} LearningIsHarmless(fleet: Fleet, scenario: Scenario, sim: Sim, now: real, i: nat,
                                              events: seq<Event>)
    requires SimOk(fleet, sim, now) && AllGiven(fleet, sim, events) && forall e | e in events :: e.Learns?
    ensures var sim' := Moves(fleet, scenario, sim, now, i, events);
            && sim'.executing == sim.executing && sim'.executions == sim.executions && sim'.failed == sim.failed
            && sim'.s.dead == sim.s.dead
    decreases |events|
  {
    if events != [] {
      var rest, last := events[..|events| - 1], events[|events| - 1];
      var before := Moves(fleet, scenario, sim, now, i, rest);
      LearningIsHarmless(fleet, scenario, sim, now, i, rest);
      StillGiven(fleet, sim, before, events);
      LessonIsHarmless(fleet, scenario, before, now, i, last);
    }
  }

  lemma LessonIsHarmless(fleet: Fleet, scenario: Scenario, sim: Sim, now: real, i: nat, e: Event)
    requires SimOk(fleet, sim, now) && Given(fleet, sim, e) && e.Learns?
    ensures var sim' := Move(fleet, scenario, sim, now, i, e);
            && sim'.executing == sim.executing && sim'.executions == sim.executions && sim'.failed == sim.failed
            && sim'.s.dead == sim.s.dead
  {
    if !sim.failed && IsDue(sim, now, e) {
      MovedRecord(fleet, scenario, sim, now, i, e);
      MovedDead(fleet, scenario, sim, now, i, e);
    }
  }

  lemma {:induction false} BriefingsAreLessons(order: seq<AgentId>, tasks: seq<Task>)
    ensures forall e | e in Briefing(order, tasks) :: e.Learns?
    decreases |order|
  {
    if order != [] {
      BriefingsAreLessons(order[..|order| - 1], tasks);
    }
  }

  /** At first nobody is dead, nothing runs, nothing is on record and nothing has raised. */
  lemma NothingAtFirst(setup: Setup)
    ensures var sim := Loaded(setup);
            sim.s.dead == {} && sim.executing == map[] && sim.executions == [] && !sim.failed && sim.injected == 0
  {
    LoadIsGiven(setup);
    BriefingsAreLessons(setup.order, setup.tasks);
    LearningIsHarmless(setup.fleet, setup.scenario, Empty(setup.fleet), 0.0, 0, Briefing(setup.order, setup.tasks));
  }
}
