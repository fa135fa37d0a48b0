/**
 All robots, the messages between them and their hosts as a transition system.
 Messages may be lost, repeated and reordered, and robots may die at any time;
 the invariants hold in every reachable state.
 */
module FleetRuns {
  import opened Types
  import opened Dag
  import opened Messages
  import opened Participation
  import opened Coordination

  /** The mission as it will ever be, and each robot's parameters. */
  datatype Fleet = Fleet(mission: Tasks, settings: map<AgentId, Settings>) {
    ghost predicate Valid() {
      && Keyed(mission) && RealIds(mission)
      && forall r | r in settings :: settings[r].id == r
    }
  }

  /**
   `host` is what each host executes. The last three record the past: tasks really
   finished, announcements ever framed, and those each robot received or framed.
   */
  datatype System = System(
    robots: map<AgentId, Participant>, dead: set<AgentId>, net: set<Message>, host: map<AgentId, TaskId>,
    finished: set<TaskId>, framed: set<RoundAnnouncement>, heard: map<AgentId, set<RoundAnnouncement>>)

  function Init(fleet: Fleet): System {
    System(map r | r in fleet.settings :: Start(fleet.settings[r]), {}, {}, map[], {}, {},
           map r | r in fleet.settings :: {})
  }

  /**
   A received message stays in the network, so it can arrive again, late, or out of
   order. A tick that raises is no step: whatever it cost the robot ends as a `Kill`.
   */
  datatype Step =
    | Receive(robot: AgentId, message: Message, now: real, benefit: TaskId -> real)
    | Inject(robot: AgentId, task: Task, now: real, benefit: TaskId -> real)
    | TickRobot(robot: AgentId, now: real, benefit: TaskId -> real)
    | Finish(robot: AgentId, now: real)
    | Kill(robot: AgentId)
    | Lose(message: Message)

  ghost predicate Live(s: System, r: AgentId) {
    r in s.robots && r !in s.dead
  }

  ghost predicate Enabled(fleet: Fleet, s: System, step: Step) {
    match step
    case Receive(r, m, _, _) => Live(s, r) && m in s.net
    case Inject(r, task, _, _) => Live(s, r) && task.id in fleet.mission && fleet.mission[task.id] == task
    case TickRobot(r, now, _) =>
      Live(s, r) && r in fleet.settings && Workable(s.robots[r]) && !TickRaises(fleet.settings[r], s.robots[r], now)
    case Finish(r, _) => Live(s, r) && r in s.host
    case Kill(r) => Live(s, r)
    case Lose(m) => m in s.net
  }

  // ------------------------------------------------------ invariants

  function Record(host: map<AgentId, TaskId>, r: AgentId): Option<TaskId> {
    if r in host then Some(host[r]) else None
  }

  /** A live robot's host executes what the robot thinks it does. */
  ghost predicate HostInStep(s: System, r: AgentId)
    requires r in s.robots
  {
    NothingPending(s.robots[r]) && Record(s.host, r) == s.robots[r].executing
  }

  /** What a robot adopted is the precedence maximum of what it heard. */
  ghost predicate HearsWell(s: System, r: AgentId)
    requires r in s.robots && r in s.heard
  {
    s.heard[r] <= s.framed && Adopted(s.heard[r], s.robots[r].announcement)
  }

  /** No robot has framed a round beyond the highest it has seen. */
  ghost predicate KnownToFramer(s: System, a: RoundAnnouncement) {
    a.coordinator in s.robots && a.roundId <= s.robots[a.coordinator].maxRoundSeen
  }

  ghost predicate Shaped(fleet: Fleet, s: System) {
    fleet.Valid() && s.robots.Keys == s.heard.Keys == fleet.settings.Keys
  }

  /** The finished tasks are closed under prerequisites. */
  ghost predicate FinishedInOrder(fleet: Fleet, s: System) {
    forall t | t in s.finished :: Ready(fleet.mission, s.finished, t)
  }

  ghost predicate RobotsSafe(fleet: Fleet, s: System) {
    forall r {:trigger SafeRobot(fleet.mission, s.finished, s.robots[r])} | r in s.robots ::
      SafeRobot(fleet.mission, s.finished, s.robots[r])
  }

  ghost predicate NetSafe(fleet: Fleet, s: System) {
    forall m | m in s.net :: SafeMessage(fleet.mission, s.finished, m) && (m.Announce? ==> m.announcement in s.framed)
  }

  ghost predicate HostsInStep(s: System) {
    forall r {:trigger HostInStep(s, r)} | Live(s, r) :: HostInStep(s, r)
  }

  ghost predicate AnnouncementsSound(s: System)
    requires s.robots.Keys == s.heard.Keys
  {
    && KeysDetermine(s.framed)
    && (forall a | a in s.framed :: KnownToFramer(s, a))
    && (forall r {:trigger HearsWell(s, r)} | r in s.robots :: HearsWell(s, r))
  }

  ghost predicate Invariant(fleet: Fleet, s: System) {
    && Shaped(fleet, s)
    && FinishedInOrder(fleet, s) && RobotsSafe(fleet, s) && NetSafe(fleet, s)
    && HostsInStep(s)
    && AnnouncementsSound(s)
  }

  // ------------------------------------------------------ steps

  /** What `r` announces joins what was framed and what `r` heard. */
  function AfterSending(s: System, r: AgentId, p: Participant, out: set<Message>): System
    requires r in s.heard
  {
    WithRobot(s, r, p, Announcements(out)).(net := s.net + out, framed := s.framed + Announcements(out))
  }

  /** Robot `r` changes to `q`, having heard `more`. */
  function WithRobot(s: System, r: AgentId, q: Participant, more: set<RoundAnnouncement>): System
    requires r in s.heard
  {
    s.(robots := s.robots[r := q], heard := s.heard[r := s.heard[r] + more])
  }

  function ApplyReceive(fleet: Fleet, s: System, r: AgentId, m: Message, now: real, benefit: TaskId -> real): System
    requires r in s.robots && r in s.heard && r in fleet.settings
  {
    WithRobot(s, r, HandleMessage(fleet.settings[r], s.robots[r], m, now, benefit), Announcements({m}))
  }

  /** The robot ticks, and its host takes note of aborts and dispatches. */
  function ApplyTick(fleet: Fleet, s: System, r: AgentId, now: real, benefit: TaskId -> real): System
    requires r in s.robots && r in s.heard && r in fleet.settings
    requires Workable(s.robots[r]) && !TickRaises(fleet.settings[r], s.robots[r], now)
  {
    var reaction := Tick(fleet.settings[r], s.robots[r], now, benefit);
    var record := HostAfter(Record(s.host, r), reaction.next.aborts, reaction.next.dispatches);
    AfterSending(s, r, Popped(reaction.next), reaction.out)
      .(host := if record.Some? then s.host[r := record.value] else s.host - {r})
  }

  /** The host is done with its task and tells the robot. */
  function ApplyFinish(fleet: Fleet, s: System, r: AgentId, now: real): System
    requires r in s.robots && r in s.heard && r in fleet.settings && r in s.host
  {
    var reaction := TaskFinished(fleet.settings[r], s.robots[r], s.host[r], now);
    AfterFinish(s, r, reaction.next, reaction.out, s.host[r])
  }

  /** Robot `r` is now `q` and sends `out`; its host has finished `t`. */
  function AfterFinish(s: System, r: AgentId, q: Participant, out: set<Message>, t: TaskId): System
    requires r in s.heard
  {
    AfterSending(s, r, q, out).(host := s.host - {r}, finished := s.finished + {t})
  }

  function ApplyKill(s: System, r: AgentId): System {
    s.(dead := s.dead + {r}, host := s.host - {r})
  }

  function Apply(fleet: Fleet, s: System, step: Step): System
    requires Invariant(fleet, s) && Enabled(fleet, s, step)
  {
    match step
    case Receive(r, m, now, benefit) => ApplyReceive(fleet, s, r, m, now, benefit)
    case Inject(r, task, now, benefit) => ApplyReceive(fleet, s, r, TaskInjected(task, now), now, benefit)
    case TickRobot(r, now, benefit) => ApplyTick(fleet, s, r, now, benefit)
    case Finish(r, now) => ApplyFinish(fleet, s, r, now)
    case Kill(r) => ApplyKill(s, r)
    case Lose(m) => s.(net := s.net - {m})
  }

  // ------------------------------------------------------ receiving

  /** A message never touches what the robot executes or owes its host. */
  lemma HandleLeavesHost(c: Settings, p: Participant, m: Message, now: real, benefit: TaskId -> real)
    requires m.Announce? ==> WellFormed(m.announcement)
    ensures var q := HandleMessage(c, p, m, now, benefit);
            q.executing == p.executing && q.dispatches == p.dispatches && q.aborts == p.aborts
  {
    match m
    case Announce(a) => AdoptFields(c.id, p, a, now, benefit);
    case Heartbeat(sender, stamp, idle) =>
      if sender == c.id {
      }
    case RoundGossip(roundId, inner) => GossipLeavesHost(c.id, p, roundId, inner);
    case LeaseRenewal(t, holder, stamp) =>
    case TaskCompleted(t, completer, stamp) =>
    case TaskInjected(task, stamp) =>
      if task.Collaborative() {
      }
  }

  lemma GossipLeavesHost(id: AgentId, p: Participant, roundId: int, inner: PriceTableMessage)
    ensures var q := OnGossip(id, p, roundId, inner);
            q.executing == p.executing && q.dispatches == p.dispatches && q.aborts == p.aborts
  {
    if p.announcement.None? || roundId != p.announcement.value.roundId {
    } else if p.agent.Some? {
      assert OnGossip(id, p, roundId, inner).executing == p.executing;
    } else if p.relay.Some? {
    }
  }

  /** A message can only raise a robot to a better announcement it carries. */
  lemma HandleAdopts(c: Settings, p: Participant, m: Message, now: real, benefit: TaskId -> real,
                     heard: set<RoundAnnouncement>)
    requires Sane(p) && (m.Announce? ==> WellFormed(m.announcement)) && (m.TaskInjected? ==> m.task.id >= 0)
    requires Adopted(heard, p.announcement)
    ensures var q := HandleMessage(c, p, m, now, benefit);
            Adopted(heard + Announcements({m}), q.announcement) && p.maxRoundSeen <= q.maxRoundSeen
  {
    HandleKeepsSane(c, p, m, now, benefit);
    match m
    case Announce(a) =>
      AdoptFields(c.id, p, a, now, benefit);
      AdoptNext(heard, p.announcement, a);
      assert Announcements({m}) == {a};
    case _ =>
      HandleKeepsAnnouncement(c, p, m, now, benefit);
      assert Announcements({m}) == {};
      assert heard + {} == heard;
  }

  lemma HandleKeepsAnnouncement(c: Settings, p: Participant, m: Message, now: real, benefit: TaskId -> real)
    requires !m.Announce?
    ensures HandleMessage(c, p, m, now, benefit).announcement == p.announcement
    ensures HandleMessage(c, p, m, now, benefit).maxRoundSeen == p.maxRoundSeen
  {
    match m
    case Heartbeat(sender, stamp, idle) =>
      if sender == c.id {
      }
    case RoundGossip(roundId, inner) =>
      if p.announcement.None? || roundId != p.announcement.value.roundId {
      } else if p.agent.Some? {
      }
    case LeaseRenewal(t, holder, stamp) =>
    case TaskCompleted(t, completer, stamp) =>
    case TaskInjected(task, stamp) =>
      if task.Collaborative() {
      }
  }

  // ------------------------------------------------------ one robot changes

  /** `s'` differs from `s` in the robot `r` and in what is on record about it. */
  ghost predicate OnlyRobot(s: System, s': System, r: AgentId) {
    && s'.robots.Keys == s.robots.Keys && s'.heard.Keys == s.heard.Keys && s'.dead == s.dead
    && (forall q | q in s.robots && q != r :: s'.robots[q] == s.robots[q])
    && (forall q | q in s.heard && q != r :: s'.heard[q] == s.heard[q])
    && s.finished <= s'.finished && s.framed <= s'.framed
  }

  lemma OthersStaySafe(fleet: Fleet, s: System, s': System, r: AgentId)
    requires RobotsSafe(fleet, s) && OnlyRobot(s, s', r) && r in s.robots
    requires SafeRobot(fleet.mission, s'.finished, s'.robots[r])
    ensures RobotsSafe(fleet, s')
  {
    forall q | q in s'.robots ensures SafeRobot(fleet.mission, s'.finished, s'.robots[q]) {
      if q != r {
        assert SafeRobot(fleet.mission, s.finished, s.robots[q]);
        SafeIsStable(s.robots[q], fleet.mission, s.finished, s'.finished);
      }
    }
  }

  /** The hosts of the others are untouched. */
  lemma OthersStayInStep(s: System, s': System, r: AgentId)
    requires HostsInStep(s) && OnlyRobot(s, s', r) && r in s.robots && HostInStep(s', r)
    requires forall q | q != r :: Record(s'.host, q) == Record(s.host, q)
    ensures HostsInStep(s')
  {
    forall q | Live(s', q) ensures HostInStep(s', q) {
      if q != r {
        assert HostInStep(s, q);
      }
    }
  }

  lemma OthersStayKnown(s: System, s': System, r: AgentId, a: RoundAnnouncement)
    requires OnlyRobot(s, s', r) && r in s.robots && KnownToFramer(s, a)
    requires s.robots[r].maxRoundSeen <= s'.robots[r].maxRoundSeen
    ensures KnownToFramer(s', a)
  {
  }

  /** The announcements stay sound when `r` rises and hears well, and new framings are known. */
  lemma AnnouncementsStaySound(s: System, s': System, r: AgentId)
    requires s.robots.Keys == s.heard.Keys && AnnouncementsSound(s) && OnlyRobot(s, s', r) && r in s.robots
    requires s.robots[r].maxRoundSeen <= s'.robots[r].maxRoundSeen
    requires KeysDetermine(s'.framed) && forall a | a in s'.framed - s.framed :: KnownToFramer(s', a)
    requires HearsWell(s', r)
    ensures AnnouncementsSound(s')
  {
    forall a | a in s'.framed ensures KnownToFramer(s', a) {
      if a in s.framed {
        assert KnownToFramer(s, a);
        OthersStayKnown(s, s', r, a);
      }
    }
    forall q | q in s'.robots ensures HearsWell(s', q) {
      if q != r {
        assert HearsWell(s, q);
      }
    }
  }

  /** Any safe change of a robot that leaves its host alone and adopts the best it heard. */
  lemma RobotChangeKeepsInvariant(fleet: Fleet, s: System, r: AgentId, q: Participant, more: set<RoundAnnouncement>)
    requires Invariant(fleet, s) && Live(s, r) && SafeRobot(fleet.mission, s.finished, q)
    requires q.executing == s.robots[r].executing && NothingPending(q)
    requires more <= s.framed && Adopted(s.heard[r] + more, q.announcement)
             && s.robots[r].maxRoundSeen <= q.maxRoundSeen
    ensures Invariant(fleet, WithRobot(s, r, q, more))
  {
    var s' := WithRobot(s, r, q, more);
    OthersStaySafe(fleet, s, s', r);
    assert HostInStep(s, r) && HearsWell(s, r);
    OthersStayInStep(s, s', r);
    AnnouncementsStaySound(s, s', r);
  }

  lemma ReceiveKeepsInvariant(fleet: Fleet, s: System, r: AgentId, m: Message, now: real, benefit: TaskId -> real)
    requires Invariant(fleet, s) && Live(s, r) && SafeMessage(fleet.mission, s.finished, m)
    requires m.Announce? ==> m.announcement in s.framed
    ensures Invariant(fleet, ApplyReceive(fleet, s, r, m, now, benefit))
  {
    var p, c := s.robots[r], fleet.settings[r];
    assert SafeRobot(fleet.mission, s.finished, p) && HostInStep(s, r) && HearsWell(s, r);
    HandleKeepsSafe(c, p, m, now, benefit, fleet.mission, s.finished);
    HandleLeavesHost(c, p, m, now, benefit);
    HandleAdopts(c, p, m, now, benefit, s.heard[r]);
    RobotChangeKeepsInvariant(fleet, s, r, HandleMessage(c, p, m, now, benefit), Announcements({m}));
  }

  // ------------------------------------------------------ ticking

  /** Robot `r` changes to `q` and sends `out`; its host executes `record` from now on. */
  function WithTick(s: System, r: AgentId, q: Participant, out: set<Message>, record: Option<TaskId>): System
    requires r in s.heard
  {
    AfterSending(s, r, q, out).(host := if record.Some? then s.host[r := record.value] else s.host - {r})
  }

  /** What a robot sends is known to it: a repetition, or a new framing of its own that it adopted. */
  ghost predicate SendsSoundly(s: System, r: AgentId, q: Participant, out: set<Message>)
    requires r in s.robots && r in s.heard
  {
    && s.robots[r].maxRoundSeen <= q.maxRoundSeen
    && Adopted(s.heard[r] + Announcements(out), q.announcement)
    && forall a | a in Announcements(out) && a !in s.framed ::
         a.coordinator == r && a.roundId > s.robots[r].maxRoundSeen && a.roundId <= q.maxRoundSeen
  }

  /** At most one of the announcements sent is new. */
  ghost predicate OneNew(s: System, out: set<Message>) {
    forall a, b | a in Announcements(out) - s.framed && b in Announcements(out) - s.framed :: a == b
  }

  /** A framing beyond everything its framer has seen has a key of its own. */
  lemma NewKeysAreFresh(s: System, r: AgentId, q: Participant, out: set<Message>)
    requires s.robots.Keys == s.heard.Keys && r in s.robots
    requires KeysDetermine(s.framed) && (forall a | a in s.framed :: KnownToFramer(s, a))
    requires SendsSoundly(s, r, q, out) && OneNew(s, out)
    ensures KeysDetermine(s.framed + Announcements(out))
  {
    forall a, b | a in s.framed + Announcements(out) && b in s.framed + Announcements(out) && SameKey(a, b)
      ensures a == b
    {
      if a !in s.framed && b !in s.framed {
        assert a in Announcements(out) - s.framed && b in Announcements(out) - s.framed;
      } else {
        assert a in s.framed ==> KnownToFramer(s, a);
        assert b in s.framed ==> KnownToFramer(s, b);
      }
    }
  }

  lemma SendingKeepsAnnouncements(s: System, r: AgentId, q: Participant, out: set<Message>, s': System)
    requires s.robots.Keys == s.heard.Keys && r in s.robots && AnnouncementsSound(s)
    requires SendsSoundly(s, r, q, out) && OneNew(s, out)
    requires OnlyRobot(s, s', r) && s'.robots[r] == q && s'.heard[r] == s.heard[r] + Announcements(out)
    requires s'.framed == s.framed + Announcements(out)
    ensures AnnouncementsSound(s')
  {
    NewKeysAreFresh(s, r, q, out);
    assert HearsWell(s, r);
    AnnouncementsStaySound(s, s', r);
  }

  lemma SendingKeepsNet(fleet: Fleet, s: System, s': System, out: set<Message>)
    requires NetSafe(fleet, s) && s.finished <= s'.finished && s'.net == s.net + out
    requires s'.framed == s.framed + Announcements(out)
    requires forall m | m in out :: SafeMessage(fleet.mission, s'.finished, m)
    ensures NetSafe(fleet, s')
  {
    forall m | m in s'.net
      ensures SafeMessage(fleet.mission, s'.finished, m) && (m.Announce? ==> m.announcement in s'.framed)
    {
      if m in s.net {
        assert SafeMessage(fleet.mission, s.finished, m);
      }
    }
  }

  lemma TickChangeKeepsInvariant(fleet: Fleet, s: System, r: AgentId, q: Participant, out: set<Message>,
                                 record: Option<TaskId>)
    requires Invariant(fleet, s) && Live(s, r) && SafeRobot(fleet.mission, s.finished, q)
    requires NothingPending(q) && q.executing == record
    requires forall m | m in out :: SafeMessage(fleet.mission, s.finished, m)
    requires SendsSoundly(s, r, q, out) && OneNew(s, out)
    ensures Invariant(fleet, WithTick(s, r, q, out, record))
  {
    var s' := WithTick(s, r, q, out, record);
    OthersStaySafe(fleet, s, s', r);
    SendingKeepsNet(fleet, s, s', out);
    SendingKeepsAnnouncements(s, r, q, out, s');
    OthersStayInStep(s, s', r);
  }

  /** A tick either repeats what is held or frames one round above everything seen. */
  lemma TickSendsSoundly(fleet: Fleet, s: System, r: AgentId, now: real, benefit: TaskId -> real)
    requires Invariant(fleet, s) && r in s.robots && Sane(s.robots[r])
             && !TickRaises(fleet.settings[r], s.robots[r], now)
    ensures var reaction := Tick(fleet.settings[r], s.robots[r], now, benefit);
            SendsSoundly(s, r, reaction.next, reaction.out) && OneNew(s, reaction.out)
  {
    var c, p := fleet.settings[r], s.robots[r];
    var reaction := Tick(c, p, now, benefit);
    assert HearsWell(s, r);
    TickKeepsSane(c, p, now, benefit);
    TickAnnounces(c, p, now, benefit);
    if OnlyRepeats(reaction.out, p.announcement) && reaction.next.announcement == p.announcement {
      RepeatsAreSound(s, r, reaction.next, reaction.out);
    } else {
      var a :| Announces(c, p, reaction, a);
      FramingIsSound(s, r, c, reaction, a);
    }
  }

  lemma RepeatsAreSound(s: System, r: AgentId, q: Participant, out: set<Message>)
    requires r in s.robots && r in s.heard && HearsWell(s, r) && Sane(s.robots[r]) && Sane(q)
    requires OnlyRepeats(out, s.robots[r].announcement) && q.announcement == s.robots[r].announcement
    ensures SendsSoundly(s, r, q, out) && OneNew(s, out)
  {
    assert s.heard[r] + Announcements(out) == s.heard[r];
  }

  lemma FramingIsSound(s: System, r: AgentId, c: Settings, reaction: Reaction, a: RoundAnnouncement)
    requires r in s.robots && r in s.heard && HearsWell(s, r) && Sane(s.robots[r]) && Sane(reaction.next)
    requires c.id == r && Announces(c, s.robots[r], reaction, a)
    ensures SendsSoundly(s, r, reaction.next, reaction.out) && OneNew(s, reaction.out)
  {
    var p := s.robots[r];
    AdoptNext(s.heard[r], p.announcement, a);
    assert s.heard[r] + Announcements(reaction.out) == s.heard[r] + {a};
  }

  lemma TickKeepsInvariant(fleet: Fleet, s: System, r: AgentId, now: real, benefit: TaskId -> real)
    requires Invariant(fleet, s) && Enabled(fleet, s, TickRobot(r, now, benefit))
    ensures Invariant(fleet, ApplyTick(fleet, s, r, now, benefit))
  {
    var c, p := fleet.settings[r], s.robots[r];
    var reaction := Tick(c, p, now, benefit);
    var record := HostAfter(Record(s.host, r), reaction.next.aborts, reaction.next.dispatches);
    assert HostInStep(s, r) && SafeRobot(fleet.mission, s.finished, p);
    TickKeepsSafe(c, p, now, benefit, fleet.mission, s.finished);
    TickAndHost(c, p, now, benefit, Record(s.host, r));
    TickSendsSoundly(fleet, s, r, now, benefit);
    TickChangeKeepsInvariant(fleet, s, r, Popped(reaction.next), reaction.out, record);
  }

  // ------------------------------------------------------ finishing

  /** The host's task is the robot's, so the robot's own check never fails. */
  lemma FinishIsExpected(fleet: Fleet, s: System, r: AgentId)
    requires Invariant(fleet, s) && Live(s, r) && r in s.host
    ensures s.robots[r].executing == Some(s.host[r])
    ensures Ready(fleet.mission, s.finished, s.host[r])
  {
    assert HostInStep(s, r) && SafeRobot(fleet.mission, s.finished, s.robots[r]);
  }

  lemma FinishedStayClosed(fleet: Fleet, s: System, t: TaskId)
    requires FinishedInOrder(fleet, s) && Ready(fleet.mission, s.finished, t)
    ensures forall u | u in s.finished + {t} :: Ready(fleet.mission, s.finished + {t}, u)
  {
  }

  /** A robot reports a task that was ready, and knows it as completed from now on. */
  lemma FinishChangeKeepsInvariant(fleet: Fleet, s: System, r: AgentId, q: Participant, out: set<Message>, t: TaskId)
    requires Invariant(fleet, s) && Live(s, r) && Ready(fleet.mission, s.finished, t)
    requires SafeRobot(fleet.mission, s.finished + {t}, q) && NothingPending(q) && q.executing.None?
    requires q.announcement == s.robots[r].announcement && q.maxRoundSeen == s.robots[r].maxRoundSeen
    requires forall m | m in out :: m.TaskCompleted? && m.taskId == t
    ensures Invariant(fleet, AfterFinish(s, r, q, out, t))
  {
    var s' := AfterFinish(s, r, q, out, t);
    assert SafeRobot(fleet.mission, s.finished, s.robots[r]) && HearsWell(s, r);
    FinishedStayClosed(fleet, s, t);
    OthersStaySafe(fleet, s, s', r);
    SendingKeepsNet(fleet, s, s', out);
    RepeatsAreSound(s, r, q, out);
    SendingKeepsAnnouncements(s, r, q, out, s');
    OthersStayInStep(s, s', r);
  }

  lemma FinishKeepsInvariant(fleet: Fleet, s: System, r: AgentId, now: real)
    requires Invariant(fleet, s) && Live(s, r) && r in s.host
    ensures Invariant(fleet, ApplyFinish(fleet, s, r, now))
  {
    var c, p, t := fleet.settings[r], s.robots[r], s.host[r];
    FinishIsExpected(fleet, s, r);
    assert SafeRobot(fleet.mission, s.finished, p) && HostInStep(s, r);
    SafeIsStable(p, fleet.mission, s.finished, s.finished + {t});
    FinishKeepsSafe(c, p, t, now, fleet.mission, s.finished + {t});
    FinishChangeKeepsInvariant(fleet, s, r, TaskFinished(c, p, t, now).next, TaskFinished(c, p, t, now).out, t);
  }

  // ------------------------------------------------------ runs

  lemma KillKeepsInvariant(fleet: Fleet, s: System, r: AgentId)
    requires Invariant(fleet, s)
    ensures Invariant(fleet, ApplyKill(s, r))
  {
    var s' := ApplyKill(s, r);
    forall q | q in s'.robots ensures SafeRobot(fleet.mission, s'.finished, s'.robots[q]) && HearsWell(s', q) {
      assert SafeRobot(fleet.mission, s.finished, s.robots[q]) && HearsWell(s, q);
    }
    forall q | Live(s', q) ensures HostInStep(s', q) {
      assert HostInStep(s, q);
    }
    forall a | a in s'.framed ensures KnownToFramer(s', a) {
      assert KnownToFramer(s, a);
    }
  }

  lemma LoseKeepsInvariant(fleet: Fleet, s: System, m: Message)
    requires Invariant(fleet, s)
    ensures Invariant(fleet, s.(net := s.net - {m}))
  {
    var s' := s.(net := s.net - {m});
    forall q | q in s'.robots ensures SafeRobot(fleet.mission, s'.finished, s'.robots[q]) && HearsWell(s', q) {
      assert SafeRobot(fleet.mission, s.finished, s.robots[q]) && HearsWell(s, q);
    }
    forall q | Live(s', q) ensures HostInStep(s', q) {
      assert HostInStep(s, q);
    }
    forall a | a in s'.framed ensures KnownToFramer(s', a) {
      assert KnownToFramer(s, a);
    }
  }

  lemma StepKeepsInvariant(fleet: Fleet, s: System, step: Step)
    requires Invariant(fleet, s) && Enabled(fleet, s, step)
    ensures Invariant(fleet, Apply(fleet, s, step))
  {
    match step
    case Receive(r, m, now, benefit) => ReceiveKeepsInvariant(fleet, s, r, m, now, benefit);
    case Inject(r, task, now, benefit) => ReceiveKeepsInvariant(fleet, s, r, TaskInjected(task, now), now, benefit);
    case TickRobot(r, now, benefit) => TickKeepsInvariant(fleet, s, r, now, benefit);
    case Finish(r, now) => FinishKeepsInvariant(fleet, s, r, now);
    case Kill(r) => KillKeepsInvariant(fleet, s, r);
    case Lose(m) => LoseKeepsInvariant(fleet, s, m);
  }

  lemma InitIsSound(fleet: Fleet)
    requires fleet.Valid()
    ensures Invariant(fleet, Init(fleet))
  {
    var s := Init(fleet);
    forall r | r in s.robots
      ensures SafeRobot(fleet.mission, s.finished, s.robots[r]) && HearsWell(s, r) && HostInStep(s, r)
    {
    }
  }

  /** Each step of `run` is enabled when its turn comes. */
  ghost predicate IsRun(fleet: Fleet, run: seq<Step>)
    requires fleet.Valid()
    decreases |run|, 0
  {
    run != [] ==>
      var before := run[..|run| - 1];
      IsRun(fleet, before) && Enabled(fleet, Execute(fleet, before), run[|run| - 1])
  }

  /** The state `run` leads to; that it satisfies the invariant is the main result. */
  ghost function Execute(fleet: Fleet, run: seq<Step>): (s: System)
    requires fleet.Valid() && IsRun(fleet, run)
    ensures Invariant(fleet, s)
    decreases |run|, 1
  {
    if run == [] then
      InitIsSound(fleet);
      Init(fleet)
    else
      var s, last := Execute(fleet, run[..|run| - 1]), run[|run| - 1];
      StepKeepsInvariant(fleet, s, last);
      Apply(fleet, s, last)
  }

  // ------------------------------------------------------ what holds in every run

  /** A prefix of a run is a run. */
  lemma {:induction false} PrefixIsRun(fleet: Fleet, run: seq<Step>, k: nat)
    requires fleet.Valid() && IsRun(fleet, run) && k <= |run|
    ensures IsRun(fleet, run[..k])
    decreases |run|
  {
    if k < |run| {
      PrefixIsRun(fleet, run[..|run| - 1], k);
      assert run[..|run| - 1][..k] == run[..k];
    } else {
      assert run[..k] == run;
    }
  }

  /** In step k of the run some host finishes task `t`. */
  ghost predicate FinishesAt(fleet: Fleet, run: seq<Step>, k: nat, t: TaskId)
    requires fleet.Valid() && IsRun(fleet, run) && k < |run|
  {
    PrefixIsRun(fleet, run, k);
    var s := Execute(fleet, run[..k]);
    run[k].Finish? && run[k].robot in s.host && s.host[run[k].robot] == t
  }

  lemma StepIsEnabled(fleet: Fleet, run: seq<Step>, k: nat)
    requires fleet.Valid() && IsRun(fleet, run) && k < |run|
    ensures IsRun(fleet, run[..k]) && Enabled(fleet, Execute(fleet, run[..k]), run[k])
  {
    PrefixIsRun(fleet, run, k);
    PrefixIsRun(fleet, run, k + 1);
    assert run[..k + 1][..k] == run[..k];
  }

  lemma FinishInPrefix(fleet: Fleet, run: seq<Step>, k: nat, j: nat, t: TaskId)
    requires fleet.Valid() && IsRun(fleet, run) && j < k <= |run| && IsRun(fleet, run[..k])
    requires FinishesAt(fleet, run[..k], j, t)
    ensures FinishesAt(fleet, run, j, t)
  {
    assert run[..k][..j] == run[..j];
  }

  lemma StepFinishes(fleet: Fleet, s: System, step: Step, t: TaskId)
    requires Invariant(fleet, s) && Enabled(fleet, s, step)
    ensures t in Apply(fleet, s, step).finished
            <==> t in s.finished || (step.Finish? && s.host[step.robot] == t)
  {
  }

  /** What was finished before the last step was finished at the same time in the run without it. */
  lemma FinishesBefore(fleet: Fleet, run: seq<Step>, k: nat, t: TaskId)
    requires fleet.Valid() && IsRun(fleet, run) && k < |run| - 1
    ensures IsRun(fleet, run[..|run| - 1]) && FinishesAt(fleet, run, k, t) == FinishesAt(fleet, run[..|run| - 1], k, t)
  {
    assert run[..|run| - 1][..k] == run[..k];
  }

  lemma FinishesLast(fleet: Fleet, run: seq<Step>, t: TaskId)
    requires fleet.Valid() && IsRun(fleet, run) && run != []
    ensures var before, last := run[..|run| - 1], |run| - 1;
            IsRun(fleet, before)
            && (FinishesAt(fleet, run, last, t)
                <==> run[last].Finish? && Execute(fleet, before).host[run[last].robot] == t)
  {
  }

  /** The record of finished tasks is that of the hosts' finish steps. */
  lemma {:induction false} FinishedByHosts(fleet: Fleet, run: seq<Step>, t: TaskId)
    requires fleet.Valid() && IsRun(fleet, run)
    ensures t in Execute(fleet, run).finished <==> exists k: nat :: k < |run| && FinishesAt(fleet, run, k, t)
    decreases |run|
  {
    if run != [] {
      var before, last := run[..|run| - 1], |run| - 1;
      FinishedByHosts(fleet, before, t);
      FinishesLast(fleet, run, t);
      StepFinishes(fleet, Execute(fleet, before), run[last], t);
      forall k: nat | k < last ensures FinishesAt(fleet, run, k, t) == FinishesAt(fleet, before, k, t) {
        FinishesBefore(fleet, run, k, t);
      }
      if t in Execute(fleet, before).finished {
        var k: nat :| k < |before| && FinishesAt(fleet, before, k, t);
        assert FinishesAt(fleet, run, k, t);
      }
      if k: nat :| k < |run| && FinishesAt(fleet, run, k, t) {
        assert k == last || FinishesAt(fleet, before, k, t);
      }
    }
  }

  /**
   Precedence safety: whenever a task is finished, each of its prerequisites was
   finished earlier in the run, whatever was lost and whoever died.
   */
  lemma PrerequisitesFinishFirst(fleet: Fleet, run: seq<Step>, k: nat, t: TaskId, p: TaskId)
    requires fleet.Valid() && IsRun(fleet, run) && k < |run| && FinishesAt(fleet, run, k, t)
    requires t in fleet.mission && p in fleet.mission[t].prerequisites
    ensures exists j: nat :: j < k && FinishesAt(fleet, run, j, p)
  {
    StepIsEnabled(fleet, run, k);
    var before := run[..k];
    assert p in Execute(fleet, before).finished by {
      FinishIsExpected(fleet, Execute(fleet, before), run[k].robot);
    }
    FinishedByHosts(fleet, before, p);
    var j: nat :| j < |before| && FinishesAt(fleet, before, j, p);
    FinishInPrefix(fleet, run, k, j, p);
  }

  /** Whatever a robot executes, dead or alive, all its prerequisites have been finished. */
  lemma ExecutedTasksAreReady(fleet: Fleet, run: seq<Step>, r: AgentId)
    requires fleet.Valid() && IsRun(fleet, run) && r in fleet.settings
    requires Execute(fleet, run).robots[r].executing.Some?
    ensures var s := Execute(fleet, run);
            var t := s.robots[r].executing.value;
            t in fleet.mission
            && forall p | p in fleet.mission[t].prerequisites ::
                 exists k: nat :: k < |run| && FinishesAt(fleet, run, k, p)
  {
    var s := Execute(fleet, run);
    var t := s.robots[r].executing.value;
    assert SafeRobot(fleet.mission, s.finished, s.robots[r]);
    forall p | p in fleet.mission[t].prerequisites ensures exists k: nat :: k < |run| && FinishesAt(fleet, run, k, p) {
      FinishedByHosts(fleet, run, p);
    }
  }

  /** In every run a host and its live robot agree, so reporting a finished task never fails the robot's check. */
  lemma HostsAgreeInEveryRun(fleet: Fleet, run: seq<Step>, r: AgentId)
    requires fleet.Valid() && IsRun(fleet, run) && Live(Execute(fleet, run), r)
    ensures Record(Execute(fleet, run).host, r) == Execute(fleet, run).robots[r].executing
  {
    assert HostInStep(Execute(fleet, run), r);
  }

  /** In every run, round and coordinator determine the announcement. */
  lemma AnnouncementsAreDetermined(fleet: Fleet, run: seq<Step>, a: RoundAnnouncement, b: RoundAnnouncement)
    requires fleet.Valid() && IsRun(fleet, run)
    requires a in Execute(fleet, run).framed && b in Execute(fleet, run).framed && SameKey(a, b)
    ensures a == b
  {
  }

  /** The highest round seen is the adopted one, and the adopted announcement is the best ever received or framed. */
  lemma AdoptedIsLatest(fleet: Fleet, run: seq<Step>, r: AgentId)
    requires fleet.Valid() && IsRun(fleet, run) && r in fleet.settings
    ensures var s := Execute(fleet, run);
            var p := s.robots[r];
            && Adopted(s.heard[r], p.announcement)
            && p.maxRoundSeen == if p.announcement.Some? then p.announcement.value.roundId else 0
  {
    var s := Execute(fleet, run);
    assert HearsWell(s, r) && SafeRobot(fleet.mission, s.finished, s.robots[r]);
  }

  /** Robots that heard the same announcements, in whatever order, hold the same one. */
  lemma SameHearingSameAnnouncement(fleet: Fleet, run: seq<Step>, q: AgentId, r: AgentId)
    requires fleet.Valid() && IsRun(fleet, run) && q in fleet.settings && r in fleet.settings
    requires Execute(fleet, run).heard[q] == Execute(fleet, run).heard[r]
    ensures Execute(fleet, run).robots[q].announcement == Execute(fleet, run).robots[r].announcement
  {
    var s := Execute(fleet, run);
    assert HearsWell(s, q) && HearsWell(s, r);
    assert KeysDetermine(s.heard[q]);
    AdoptionIsUnique(s.heard[q], s.robots[q].announcement, s.robots[r].announcement);
  }
}
