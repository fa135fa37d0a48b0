/**
 A run in which one task is executed twice: two robots that never hear of each
 other. Each frames a round for itself, wins it, and executes the task. The
 robots tick in turn, once per unit of time, and the hosts take as long as the
 task does.
 */
module LonelyRobots {
  import opened Types
  import opened Engine
  import opened Dag
  import opened IdOrder
  import opened Messages
  import opened Heartbeats
  import opened Leases
  import opened Participation
  import opened Coordination
  import opened FleetRuns
  import opened ExactlyOnce

  const Errand := Task(0, [], 1.0, {}, 1)

  function Mission(): Tasks {
    map[0 := Errand]
  }

  function SettingsOf(r: AgentId): Settings {
    Settings(r, [], 0.0, 1.0, 3.0, 6.0, RoundConfig(1.0, 1), 30.0)
  }

  function Pair(): Fleet {
    Fleet(Mission(), map[0 := SettingsOf(0), 1 := SettingsOf(1)])
  }

  function Worthless(): TaskId -> real {
    t => 0.0
  }

  lemma MissionIsDag()
    ensures IsDag(Mission())
  {
    forall t ensures !Depends(Mission(), t, t) {
      forall n: nat ensures !DependsIn(Mission(), t, t, n) {
      }
    }
  }

  // ------------------------------------------------------ one robot on its own

  /**
   How far a robot has come: it is told of the errand, bids for a round of its own, has
   bid, and executes the errand.
   */
  datatype Phase = Unaware | Informed | Bidding | Winning | Working

  /** Nothing but the mission and the robot's own heartbeat. */
  ghost predicate Secluded(r: AgentId, p: Participant) {
    && p.tasks == Mission() && p.completed == map[] && p.leases == map[] && p.executing.None?
    && p.idleFlags == map[]
  }

  /** The robot bids for the errand, and nothing else, in a round of its own. */
  ghost predicate BidsForErrand(r: AgentId, p: Participant) {
    && Secluded(r, p) && p.announcement.Some? && (forall t | t in p.announcement.value.taskIds :: t == 0)
    && p.relay.None? && p.agent.Some? && p.agent.value.config == RoundConfig(1.0, 1)
    && Fits(p.agent.value.row, p.agent.value.st)
    && p.agent.value.st.table.Keys == {0}
  }

  /** The robot has just bid on the errand. */
  ghost predicate HasBid(r: AgentId, p: Participant) {
    BidsForErrand(r, p)
    && var st := p.agent.value.st;
    st.assignment == Some(0) && st.table[0].bidder == r && !st.dirty && st.quiescentTicks == 0
  }

  /** The robot executes the errand, and holds the lease of it beyond `until`. */
  ghost predicate Executes(r: AgentId, p: Participant, until: real) {
    && p.tasks == Mission() && p.executing == Some(0) && p.announcement.Some? && p.agent.None? && p.relay.None?
    && p.leases.Keys == {0} && p.leases[0] == Lease(0, r, p.leases[0].expiresAt)
    && p.leases[0].expiresAt > until
  }

  ghost predicate InPhase(r: AgentId, p: Participant, phase: Phase, until: real) {
    match phase
    case Unaware => p == Start(SettingsOf(r))
    case Informed => p == AddTask(Start(SettingsOf(r)), Errand)
    case Bidding => BidsForErrand(r, p) && p.agent.value.st.assignment.None?
    case Winning => HasBid(r, p)
    case Working => Executes(r, p, until)
  }

  /** Where a tick leads. */
  function After(phase: Phase): Phase {
    match phase
    case Informed => Bidding
    case Bidding => Winning
    case _ => Working
  }

  lemma OnlyErrandIsAvailable(p: Participant)
    requires p.tasks == Mission() && p.completed == map[] && p.leases == map[]
    ensures AvailableTasks(p) == {0}
  {
  }

  lemma ErrandAlone(ids: seq<TaskId>, a: RoundAnnouncement)
    requires ids == SortedIds({0}) && a.taskIds == ids && a.idleSlots == 0
    ensures a.taskIds != [] && (forall t | t in a.taskIds :: t == 0) && RoundTasks(a) == {0}
  {
    SortedIsSorted({0});
    assert 0 in ids;
    assert Slots(a) == [];
  }

  /** The first tick: nobody else is known, so the robot frames a round for itself and bids in it. */
  lemma FirstTick(r: AgentId, p: Participant, now: real, until: real)
    requires InPhase(r, p, Informed, until)
    ensures Workable(p) && !TickRaises(SettingsOf(r), p, now)
    ensures InPhase(r, Tick(SettingsOf(r), p, now, Worthless()).next, Bidding, until)
  {
    var c := SettingsOf(r);
    var own := TickOwn(c, p, now).next;
    assert own == p.(seen := map[r := now], leases := map[], lastHeartbeat := Some(now));
    MissionIsDag();
    OnlyErrandIsAvailable(own);
    assert KnownIdle(c, own, now) == {r};
    assert Alive(own.seen, c.timeout, now) == {r};
    assert Frames(c, own, now);
    FramedForItself(r, own, now, until);
  }

  lemma FramedForItself(r: AgentId, own: Participant, now: real, until: real)
    requires Secluded(r, own) && own.announcement.None?
    requires KnownIdle(SettingsOf(r), own, now) == {r} && AvailableTasks(own) == {0} && Frames(SettingsOf(r), own, now)
    ensures InPhase(r, OnAnnouncement(r, own, Framing(SettingsOf(r), own, now), now, Worthless()), Bidding, until)
  {
    var a := Framing(SettingsOf(r), own, now);
    SortedIsSorted({r});
    assert r in a.participants;
    ErrandAlone(a.taskIds, a);
    NewAgentFits(own.tasks, a, Worthless());
    assert OnAnnouncement(r, own, a, now, Worthless()) == BidInRound(OpenRound(own, a, now), a, Worthless());
  }

  /** While it bids, a robot frames nothing else. */
  lemma BidderWaits(r: AgentId, p: Participant, now: real)
    requires p.announcement.Some? && p.agent.Some?
    ensures !Frames(SettingsOf(r), p, now) && !LookingRaises(SettingsOf(r), p, now)
  {
  }

  lemma RefreshedBidder(r: AgentId, p: Participant, now: real)
    requires BidsForErrand(r, p)
    ensures var q := Refresh(SettingsOf(r), p, now);
            BidsForErrand(r, q) && q.agent == p.agent && q.roundOpenedAt == p.roundOpenedAt
  {
  }

  lemma BeatingBidder(r: AgentId, p: Participant, now: real)
    requires HasBid(r, p)
    ensures HasBid(r, TickHeartbeat(SettingsOf(r), p, now).next)
  {
  }

  /** The second tick: the robot bids. */
  lemma SecondTick(r: AgentId, p: Participant, now: real, until: real)
    requires InPhase(r, p, Bidding, until)
    ensures Workable(p) && !TickRaises(SettingsOf(r), p, now)
    ensures InPhase(r, Tick(SettingsOf(r), p, now, Worthless()).next, Winning, until)
  {
    var c, q := SettingsOf(r), Refresh(SettingsOf(r), p, now);
    RefreshedBidder(r, p, now);
    var h := q.agent.value;
    var st := TickState(r, h.row, h.config, h.st);
    BidLeavesSlack(r, h.row, h.config, h.st);
    var bid := TickRound(c, q, now).next;
    assert bid == q.(agent := Some(h.(st := st)));
    BeatingBidder(r, bid, now);
    BidderWaits(r, TickHeartbeat(c, bid, now).next, now);
  }

  /** The third tick: nothing has changed, so the auction is over and the robot takes the errand on. */
  lemma ThirdTick(r: AgentId, p: Participant, now: real, until: real)
    requires InPhase(r, p, Winning, until) && now + 6.0 > until
    ensures Workable(p) && !TickRaises(SettingsOf(r), p, now)
    ensures InPhase(r, Tick(SettingsOf(r), p, now, Worthless()).next, Working, until)
  {
    var c, q := SettingsOf(r), Refresh(SettingsOf(r), p, now);
    RefreshedBidder(r, p, now);
    var h := q.agent.value;
    var st := TickState(r, h.row, h.config, h.st);
    var settled := TickRound(c, q, now).next;
    assert settled == Settle(c, q.(agent := Some(h.(st := st))), Some(0), now).next;
    BeatAtWork(r, settled, now, until);
    NothingLeft(r, TickHeartbeat(c, settled, now).next, now);
  }

  /** With the errand leased, there is nothing to frame. */
  lemma NothingLeft(r: AgentId, p: Participant, now: real)
    requires p.tasks == Mission() && 0 in p.leases && p.announcement.Some?
    ensures !Frames(SettingsOf(r), p, now) && !LookingRaises(SettingsOf(r), p, now)
  {
    MissionIsDag();
    assert AvailableTasks(p) == {};
  }

  lemma BeatAtWork(r: AgentId, p: Participant, now: real, until: real)
    requires Executes(r, p, until) && until < now + 6.0
    ensures Executes(r, TickHeartbeat(SettingsOf(r), p, now).next, until)
  {
  }

  /** A robot at work keeps its lease and stays at work. */
  lemma TickAtWork(r: AgentId, p: Participant, now: real, until: real)
    requires InPhase(r, p, Working, until) && now <= until < now + 6.0
    ensures Workable(p) && !TickRaises(SettingsOf(r), p, now)
    ensures InPhase(r, Tick(SettingsOf(r), p, now, Worthless()).next, Working, until)
  {
    var c, q := SettingsOf(r), Refresh(SettingsOf(r), p, now);
    assert q == p.(seen := q.seen, leases := p.leases);
    assert TickRound(c, q, now).next == q;
    BeatAtWork(r, q, now, until);
    NothingLeft(r, TickHeartbeat(c, q, now).next, now);
  }

  lemma PhaseTick(r: AgentId, p: Participant, phase: Phase, now: real, until: real)
    requires InPhase(r, p, phase, until) && !phase.Unaware? && now <= until < now + 6.0
    ensures Workable(p) && !TickRaises(SettingsOf(r), p, now)
    ensures InPhase(r, Popped(Tick(SettingsOf(r), p, now, Worthless()).next), After(phase), until)
  {
    match phase
    case Informed => FirstTick(r, p, now, until);
    case Bidding => SecondTick(r, p, now, until);
    case Winning => ThirdTick(r, p, now, until);
    case Working => TickAtWork(r, p, now, until);
  }

  // ------------------------------------------------------ the run

  /** Both robots tick, one after the other. */
  function BothTick(now: real): seq<Step> {
    [TickRobot(0, now, Worthless()), TickRobot(1, now, Worthless())]
  }

  /** Both robots are told of the errand. */
  function BothTold(now: real): seq<Step> {
    [Inject(0, Errand, now, Worthless()), Inject(1, Errand, now, Worthless())]
  }

  function BothFinish(now: real): seq<Step> {
    [Finish(0, now), Finish(1, now)]
  }

  /** From `start` on the robots tick four times; the hosts begin with the third tick, and are done with the fourth. */
  function Plan(start: real): seq<Step> {
    FourTicks(start) + BothFinish(start + 3.0)
  }

  function FourTicks(start: real): seq<Step> {
    BothTold(start) + BothTick(start) + BothTick(start + 1.0) + BothTick(start + 2.0) + BothTick(start + 3.0)
  }

  ghost predicate At(s: System, r: AgentId, phase: Phase, until: real) {
    Live(s, r) && InPhase(r, s.robots[r], phase, until)
  }

  /** The run leads to this state. */
  ghost predicate Leads(run: seq<Step>, s: System) {
    Pair().Valid() && IsRun(Pair(), run) && Execute(Pair(), run) == s
  }

  /** The run, one step longer. */
  lemma LeadOn(run: seq<Step>, s: System, step: Step)
    requires Leads(run, s) && Enabled(Pair(), s, step)
    ensures Invariant(Pair(), s) && Leads(run + [step], Apply(Pair(), s, step))
  {
    Extend(Pair(), run, step);
  }

  /** The other robot is as it was. */
  ghost predicate Unnoticed(s: System, s': System, q: AgentId) {
    Live(s, q) ==> Live(s', q) && s'.robots[q] == s.robots[q]
  }

  lemma InjectOne(s: System, r: AgentId, q: AgentId, now: real, until: real)
    requires Invariant(Pair(), s) && At(s, r, Unaware, until) && q != r
    ensures var step := Inject(r, Errand, now, Worthless());
            Enabled(Pair(), s, step)
            && var s' := Apply(Pair(), s, step); At(s', r, Informed, until) && Unnoticed(s, s', q)
  {
  }

  lemma TickChange(s: System, r: AgentId, q: AgentId, now: real)
    requires Invariant(Pair(), s) && Live(s, r) && r in Pair().settings && q != r
    requires Workable(s.robots[r]) && !TickRaises(SettingsOf(r), s.robots[r], now)
    ensures var step := TickRobot(r, now, Worthless());
            Enabled(Pair(), s, step)
            && var s' := Apply(Pair(), s, step);
            && Live(s', r) && Unnoticed(s, s', q)
            && s'.robots[r] == Popped(Tick(SettingsOf(r), s.robots[r], now, Worthless()).next)
  {
  }

  lemma TickOne(s: System, r: AgentId, q: AgentId, phase: Phase, now: real, until: real)
    requires Invariant(Pair(), s) && At(s, r, phase, until) && !phase.Unaware? && r in Pair().settings && q != r
    requires now <= until < now + 6.0
    ensures var step := TickRobot(r, now, Worthless());
            Enabled(Pair(), s, step)
            && var s' := Apply(Pair(), s, step); At(s', r, After(phase), until) && Unnoticed(s, s', q)
  {
    PhaseTick(r, s.robots[r], phase, now, until);
    TickChange(s, r, q, now);
  }

  lemma LeadsKeepsInvariant(run: seq<Step>, s: System)
    requires Leads(run, s)
    ensures Invariant(Pair(), s)
  {
  }

  /** A run after which robot 0 is in phase `p` and robot 1 in phase `q`. */
  ghost predicate Brings(run: seq<Step>, p: Phase, q: Phase, until: real) {
    exists s :: BringsTo(run, s, p, q, until)
  }

  ghost predicate BringsTo(run: seq<Step>, s: System, p: Phase, q: Phase, until: real) {
    Leads(run, s) && At(s, 0, p, until) && At(s, 1, q, until)
  }

  lemma Beginning(until: real)
    ensures Brings([], Unaware, Unaware, until)
  {
    assert BringsTo([], Init(Pair()), Unaware, Unaware, until);
  }

  lemma FirstTold(run: seq<Step>, q: Phase, now: real, until: real)
    requires Brings(run, Unaware, q, until)
    ensures Brings(run + [Inject(0, Errand, now, Worthless())], Informed, q, until)
  {
    var s :| BringsTo(run, s, Unaware, q, until);
    var step := Inject(0, Errand, now, Worthless());
    LeadsKeepsInvariant(run, s);
    InjectOne(s, 0, 1, now, until);
    LeadOn(run, s, step);
    assert BringsTo(run + [step], Apply(Pair(), s, step), Informed, q, until);
  }

  lemma SecondTold(run: seq<Step>, p: Phase, now: real, until: real)
    requires Brings(run, p, Unaware, until)
    ensures Brings(run + [Inject(1, Errand, now, Worthless())], p, Informed, until)
  {
    var s :| BringsTo(run, s, p, Unaware, until);
    var step := Inject(1, Errand, now, Worthless());
    LeadsKeepsInvariant(run, s);
    InjectOne(s, 1, 0, now, until);
    LeadOn(run, s, step);
    assert BringsTo(run + [step], Apply(Pair(), s, step), p, Informed, until);
  }

  lemma FirstTicks(run: seq<Step>, p: Phase, q: Phase, now: real, until: real)
    requires Brings(run, p, q, until) && !p.Unaware? && now <= until < now + 6.0
    ensures Brings(run + [TickRobot(0, now, Worthless())], After(p), q, until)
  {
    var s :| BringsTo(run, s, p, q, until);
    var step := TickRobot(0, now, Worthless());
    LeadsKeepsInvariant(run, s);
    TickOne(s, 0, 1, p, now, until);
    LeadOn(run, s, step);
    assert BringsTo(run + [step], Apply(Pair(), s, step), After(p), q, until);
  }

  lemma SecondTicks(run: seq<Step>, p: Phase, q: Phase, now: real, until: real)
    requires Brings(run, p, q, until) && !q.Unaware? && now <= until < now + 6.0
    ensures Brings(run + [TickRobot(1, now, Worthless())], p, After(q), until)
  {
    var s :| BringsTo(run, s, p, q, until);
    var step := TickRobot(1, now, Worthless());
    LeadsKeepsInvariant(run, s);
    TickOne(s, 1, 0, q, now, until);
    LeadOn(run, s, step);
    assert BringsTo(run + [step], Apply(Pair(), s, step), p, After(q), until);
  }

  // ------------------------------------------------------ four ticks each

  /** What a run brings about, as a relation: the argument below only uses how it changes. */
  type Course = (seq<Step>, Phase, Phase) -> bool

  ghost function CourseUntil(until: real): Course {
    (run: seq<Step>, p: Phase, q: Phase) => Brings(run, p, q, until)
  }

  ghost predicate TellsBoth(course: Course, now: real) {
    && (forall run, q | course(run, Unaware, q) :: course(run + [Inject(0, Errand, now, Worthless())], Informed, q))
    && (forall run, p | course(run, p, Unaware) :: course(run + [Inject(1, Errand, now, Worthless())], p, Informed))
  }

  ghost predicate TicksBoth(course: Course, now: real) {
    && (forall run, p, q | course(run, p, q) && !p.Unaware? ::
         course(run + [TickRobot(0, now, Worthless())], After(p), q))
    && (forall run, p, q | course(run, p, q) && !q.Unaware? ::
         course(run + [TickRobot(1, now, Worthless())], p, After(q)))
  }

  lemma CourseTells(now: real, until: real)
    ensures TellsBoth(CourseUntil(until), now)
  {
    var course := CourseUntil(until);
    forall run, q | course(run, Unaware, q) ensures course(run + [Inject(0, Errand, now, Worthless())], Informed, q) {
      FirstTold(run, q, now, until);
    }
    forall run, p | course(run, p, Unaware) ensures course(run + [Inject(1, Errand, now, Worthless())], p, Informed) {
      SecondTold(run, p, now, until);
    }
  }

  lemma CourseTicks(now: real, until: real)
    requires now <= until < now + 6.0
    ensures TicksBoth(CourseUntil(until), now)
  {
    var course := CourseUntil(until);
    forall run, p, q | course(run, p, q) && !p.Unaware?
      ensures course(run + [TickRobot(0, now, Worthless())], After(p), q)
    {
      FirstTicks(run, p, q, now, until);
    }
    forall run, p, q | course(run, p, q) && !q.Unaware?
      ensures course(run + [TickRobot(1, now, Worthless())], p, After(q))
    {
      SecondTicks(run, p, q, now, until);
    }
  }

  lemma BothAreTold(course: Course, run: seq<Step>, now: real) returns (run': seq<Step>)
    requires TellsBoth(course, now) && course(run, Unaware, Unaware)
    ensures run' == run + BothTold(now) && course(run', Informed, Informed)
  {
    run' := run + [Inject(0, Errand, now, Worthless())];
    assert course(run', Informed, Unaware);
    run' := run' + [Inject(1, Errand, now, Worthless())];
  }

  lemma BothGoOn(course: Course, run: seq<Step>, phase: Phase, now: real) returns (run': seq<Step>)
    requires TicksBoth(course, now) && course(run, phase, phase) && !phase.Unaware?
    ensures run' == run + BothTick(now) && course(run', After(phase), After(phase))
  {
    run' := run + [TickRobot(0, now, Worthless())];
    assert course(run', After(phase), phase);
    run' := run' + [TickRobot(1, now, Worthless())];
  }

  lemma BothGetToWork(course: Course, start: real) returns (run: seq<Step>)
    requires TellsBoth(course, start) && TicksBoth(course, start) && TicksBoth(course, start + 1.0)
    requires TicksBoth(course, start + 2.0) && TicksBoth(course, start + 3.0) && course([], Unaware, Unaware)
    ensures run == FourTicks(start)
    ensures course(run, Working, Working)
  {
    run := BothAreTold(course, [], start);
    run := BothGoOn(course, run, Informed, start);
    run := BothGoOn(course, run, Bidding, start + 1.0);
    run := BothGoOn(course, run, Winning, start + 2.0);
    run := BothGoOn(course, run, Working, start + 3.0);
  }

  lemma BothWork(start: real) returns (run: seq<Step>)
    ensures run == FourTicks(start)
    ensures Brings(run, Working, Working, start + 3.0)
  {
    var until := start + 3.0;
    Beginning(until);
    CourseTells(start, until);
    CourseTicks(start, until);
    CourseTicks(start + 1.0, until);
    CourseTicks(start + 2.0, until);
    CourseTicks(start + 3.0, until);
    run := BothGetToWork(CourseUntil(until), start);
  }

  // ------------------------------------------------------ both hosts are done

  lemma FinishChange(s: System, r: AgentId, q: AgentId, now: real, until: real)
    requires Invariant(Pair(), s) && At(s, r, Working, until) && q != r
    ensures r in s.host && s.host[r] == 0 && Enabled(Pair(), s, Finish(r, now))
    ensures Unnoticed(s, Apply(Pair(), s, Finish(r, now)), q)
  {
    assert HostInStep(s, r);
  }

  lemma FinishesNow(run: seq<Step>, s: System, run': seq<Step>, s': System, r: AgentId, now: real)
    requires Leads(run, s) && Leads(run', s') && run' == run + [Finish(r, now)] && r in s.host && s.host[r] == 0
    ensures FinishesAt(Pair(), run', |run|, 0)
  {
    assert run'[..|run|] == run;
  }

  /** The host of robot `r`, at work, finishes the errand. */
  lemma Finishes(run: seq<Step>, s: System, r: AgentId, q: AgentId, now: real, until: real)
    returns (run': seq<Step>, s': System)
    requires Leads(run, s) && At(s, r, Working, until) && q != r
    ensures run' == run + [Finish(r, now)] && Leads(run', s') && Unnoticed(s, s', q)
    ensures FinishesAt(Pair(), run', |run|, 0)
  {
    LeadsKeepsInvariant(run, s);
    FinishChange(s, r, q, now, until);
    LeadOn(run, s, Finish(r, now));
    run', s' := run + [Finish(r, now)], Apply(Pair(), s, Finish(r, now));
    FinishesNow(run, s, run', s', r, now);
  }

  /** The errand is finished in two steps of the run. */
  ghost predicate FinishesTwice(run: seq<Step>) {
    Pair().Valid() && IsRun(Pair(), run)
    && exists j: nat, k: nat :: j < k < |run| && FinishesAt(Pair(), run, j, 0) && FinishesAt(Pair(), run, k, 0)
  }

  /** The errand has been finished once, and robot 1 is still at it. */
  ghost predicate OnceDone(run: seq<Step>, until: real) {
    exists s, j :: OnceDoneIn(run, s, j, until)
  }

  ghost predicate OnceDoneIn(run: seq<Step>, s: System, j: nat, until: real) {
    Leads(run, s) && At(s, 1, Working, until) && j < |run| && FinishesAt(Pair(), run, j, 0)
  }

  lemma FirstFinishes(run: seq<Step>, now: real, until: real)
    requires Brings(run, Working, Working, until)
    ensures OnceDone(run + [Finish(0, now)], until)
  {
    var s :| BringsTo(run, s, Working, Working, until);
    var run', s' := Finishes(run, s, 0, 1, now, until);
    assert OnceDoneIn(run', s', |run|, until);
  }

  lemma SecondFinishes(run: seq<Step>, now: real, until: real)
    requires OnceDone(run, until)
    ensures FinishesTwice(run + [Finish(1, now)])
  {
    var s, j :| OnceDoneIn(run, s, j, until);
    var run', s' := Finishes(run, s, 1, 0, now, until);
    FinishesStay(Pair(), run, [Finish(1, now)], j, 0);
  }

  /** Two robots that never hear of each other both finish the errand. */
  lemma ErrandTwice(start: real)
    ensures FinishesTwice(Plan(start))
  {
    var run := BothWork(start);
    BothAreDone(run, start + 3.0, start + 3.0);
    WorkThenFinish(run, start);
  }

  lemma BothAreDone(run: seq<Step>, now: real, until: real)
    requires Brings(run, Working, Working, until)
    ensures FinishesTwice(run + [Finish(0, now)] + [Finish(1, now)])
  {
    FirstFinishes(run, now, until);
    SecondFinishes(run + [Finish(0, now)], now, until);
  }

  lemma WorkThenFinish(run: seq<Step>, start: real)
    requires run == FourTicks(start)
    ensures Plan(start) == run + [Finish(0, start + 3.0)] + [Finish(1, start + 3.0)]
  {
  }

  lemma TwiceIsNotOnce(run: seq<Step>)
    requires FinishesTwice(run)
    ensures !OnceEach(Pair(), run) && !AllGuarded(Pair(), run)
  {
    if AllGuarded(Pair(), run) {
      GuardedRunsFinishOnce(Pair(), run);
    }
  }

  /** So the protocol does not execute every task at most once, and not every dispatch is exclusive. */
  lemma TasksMayBeExecutedTwice(start: real)
    ensures Pair().Valid() && IsRun(Pair(), Plan(start))
    ensures !OnceEach(Pair(), Plan(start)) && !AllGuarded(Pair(), Plan(start))
  {
    ErrandTwice(start);
    TwiceIsNotOnce(Plan(start));
  }
}
