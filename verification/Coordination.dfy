/**
 One robot's share of the invariants of a fleet: what it believes is true, what
 it sends is true, and its host executes what it thinks.
 */
module Coordination {
  import opened Types
  import opened Dag
  import opened Engine
  import opened IdOrder
  import opened Messages
  import opened Participation

  // ------------------------------------------------------ one robot's share of safety

  /** All prerequisites of `t` have really been finished. */
  ghost predicate Ready(mission: Tasks, finished: set<TaskId>, t: TaskId) {
    t in mission && mission[t].prerequisites <= finished
  }

  ghost predicate AllReady(mission: Tasks, finished: set<TaskId>, taskIds: seq<TaskId>) {
    forall t | t in taskIds :: Ready(mission, finished, t)
  }

  /** Announcements name ready tasks only, and reported completions are true. */
  ghost predicate SafeMessage(mission: Tasks, finished: set<TaskId>, m: Message) {
    match m
    case Announce(a) => WellFormed(a) && AllReady(mission, finished, a.taskIds)
    case TaskCompleted(t, _, _) => t in finished
    case TaskInjected(task, _) => task.id >= 0 && task.id in mission && mission[task.id] == task
    case _ => true
  }

  /** A robot's tasks are the mission's. */
  ghost predicate KnowsMission(mission: Tasks, tasks: Tasks) {
    forall t | t in tasks :: t in mission && mission[t] == tasks[t]
  }

  /** What is believed complete is finished, and what is executed or adopted is ready. */
  ghost predicate True(mission: Tasks, finished: set<TaskId>, tasks: Tasks, completed: set<TaskId>,
                       executing: Option<TaskId>, announcement: Option<RoundAnnouncement>)
  {
    && KnowsMission(mission, tasks)
    && completed <= finished
    && (executing.Some? ==> Ready(mission, finished, executing.value))
    && (announcement.Some? ==> AllReady(mission, finished, announcement.value.taskIds))
  }

  ghost predicate Truthful(mission: Tasks, finished: set<TaskId>, p: Participant) {
    True(mission, finished, p.tasks, p.completed.Keys, p.executing, p.announcement)
  }

  ghost predicate SafeRobot(mission: Tasks, finished: set<TaskId>, p: Participant) {
    Sane(p) && Truthful(mission, finished, p)
  }

  lemma AdoptKeepsTruth(id: AgentId, p: Participant, a: RoundAnnouncement, now: real, benefit: TaskId -> real,
                        mission: Tasks, finished: set<TaskId>)
    requires Truthful(mission, finished, p) && WellFormed(a) && AllReady(mission, finished, a.taskIds)
    ensures Truthful(mission, finished, OnAnnouncement(id, p, a, now, benefit))
  {
    AdoptFields(id, p, a, now, benefit);
  }

  /** Adopting an announcement touches nothing but the round. */
  ghost predicate SameButRound(p: Participant, q: Participant) {
    && q.tasks == p.tasks && q.completed == p.completed && q.executing == p.executing
    && q.dispatches == p.dispatches && q.aborts == p.aborts
  }

  lemma AdoptFields(id: AgentId, p: Participant, a: RoundAnnouncement, now: real, benefit: TaskId -> real)
    ensures var q := OnAnnouncement(id, p, a, now, benefit);
            SameButRound(p, q) && q.announcement == if Adopts(p, a) then Some(a) else p.announcement
  {
    var joined := OpenRound(p, a, now);
    OpenFields(p, a, now);
    if Adopts(p, a) && !AnnouncementRaises(id, p, a) {
      if id in a.participants {
        BidFields(joined, a, benefit);
      } else {
        RelayFields(joined, a);
      }
    }
  }

  lemma OpenFields(p: Participant, a: RoundAnnouncement, now: real)
    ensures SameButRound(p, OpenRound(p, a, now)) && OpenRound(p, a, now).announcement == Some(a)
  {
  }

  lemma BidFields(p: Participant, a: RoundAnnouncement, benefit: TaskId -> real)
    requires Biddable(a)
    ensures SameButRound(p, BidInRound(p, a, benefit)) && BidInRound(p, a, benefit).announcement == p.announcement
  {
  }

  lemma RelayFields(p: Participant, a: RoundAnnouncement)
    ensures SameButRound(p, RelayRound(p, a)) && RelayRound(p, a).announcement == p.announcement
  {
  }

  lemma NewTaskIsKnown(mission: Tasks, tasks: Tasks, task: Task)
    requires KnowsMission(mission, tasks) && task.id in mission && mission[task.id] == task
    ensures KnowsMission(mission, tasks[task.id := task])
  {
  }

  lemma AddTaskKeepsTruth(p: Participant, task: Task, mission: Tasks, finished: set<TaskId>)
    requires Truthful(mission, finished, p) && task.id in mission && mission[task.id] == task
    ensures Truthful(mission, finished, AddTask(p, task))
  {
    NewTaskIsKnown(mission, p.tasks, task);
    if task.Collaborative() {
    }
  }

  lemma HeartbeatKeepsTruth(id: AgentId, p: Participant, sender: AgentId, stamp: real, idle: bool, now: real,
                            mission: Tasks, finished: set<TaskId>)
    requires Truthful(mission, finished, p)
    ensures Truthful(mission, finished, OnHeartbeat(id, p, sender, stamp, idle, now))
  {
    if sender == id {
    }
  }

  lemma GossipKeepsTruth(id: AgentId, p: Participant, roundId: int, inner: PriceTableMessage, mission: Tasks,
                         finished: set<TaskId>)
    requires Truthful(mission, finished, p)
    ensures Truthful(mission, finished, OnGossip(id, p, roundId, inner))
  {
    if p.announcement.None? || roundId != p.announcement.value.roundId {
    } else if p.agent.Some? {
    }
  }

  lemma RenewalKeepsTruth(s: Settings, p: Participant, t: TaskId, holder: AgentId, now: real, mission: Tasks,
                          finished: set<TaskId>)
    requires Truthful(mission, finished, p)
    ensures Truthful(mission, finished, OnLeaseRenewal(s, p, t, holder, now))
  {
  }

  lemma CompletionKeepsTruth(p: Participant, t: TaskId, completer: AgentId, mission: Tasks, finished: set<TaskId>)
    requires Truthful(mission, finished, p) && t in finished
    ensures Truthful(mission, finished, OnCompleted(p, t, completer))
  {
  }

  lemma HandleKeepsTruth(s: Settings, p: Participant, m: Message, now: real, benefit: TaskId -> real, mission: Tasks,
                         finished: set<TaskId>)
    requires Truthful(mission, finished, p) && SafeMessage(mission, finished, m)
    ensures Truthful(mission, finished, HandleMessage(s, p, m, now, benefit))
  {
    match m
    case Heartbeat(sender, stamp, idle) => HeartbeatKeepsTruth(s.id, p, sender, stamp, idle, now, mission, finished);
    case Announce(a) => AdoptKeepsTruth(s.id, p, a, now, benefit, mission, finished);
    case RoundGossip(roundId, inner) => GossipKeepsTruth(s.id, p, roundId, inner, mission, finished);
    case LeaseRenewal(t, holder, stamp) => RenewalKeepsTruth(s, p, t, holder, now, mission, finished);
    case TaskCompleted(t, completer, stamp) => CompletionKeepsTruth(p, t, completer, mission, finished);
    case TaskInjected(task, stamp) => AddTaskKeepsTruth(p, task, mission, finished);
  }

  lemma HandleKeepsSafe(s: Settings, p: Participant, m: Message, now: real, benefit: TaskId -> real, mission: Tasks,
                        finished: set<TaskId>)
    requires SafeRobot(mission, finished, p) && SafeMessage(mission, finished, m)
    ensures SafeRobot(mission, finished, HandleMessage(s, p, m, now, benefit))
  {
    HandleKeepsSane(s, p, m, now, benefit);
    HandleKeepsTruth(s, p, m, now, benefit, mission, finished);
  }

  lemma RefreshKeepsTruth(s: Settings, p: Participant, now: real, mission: Tasks, finished: set<TaskId>)
    requires Truthful(mission, finished, p)
    ensures Truthful(mission, finished, Refresh(s, p, now))
  {
  }

  /** A robot only ever wins a task of the announcement it bids for. */
  lemma WinIsReady(s: Settings, p: Participant, mission: Tasks, finished: set<TaskId>)
    requires Sane(p) && Truthful(mission, finished, p) && p.agent.Some?
    ensures var won := TickState(s.id, p.agent.value.row, p.agent.value.config, p.agent.value.st).assignment;
            won.Some? && won.value >= 0 ==> Ready(mission, finished, won.value)
  {
    TickedAgentIsOk(s.id, p.agent.value, p.announcement.value);
  }

  lemma TickRoundKeepsTruth(s: Settings, p: Participant, now: real, mission: Tasks, finished: set<TaskId>)
    requires Sane(p) && Truthful(mission, finished, p)
    ensures Truthful(mission, finished, TickRound(s, p, now).next)
    ensures forall m | m in TickRound(s, p, now).out :: m.RoundGossip? || m.LeaseRenewal?
  {
    if p.agent.Some? {
      WinIsReady(s, p, mission, finished);
    }
  }

  lemma TickHeartbeatKeepsTruth(s: Settings, p: Participant, now: real, mission: Tasks, finished: set<TaskId>)
    requires Truthful(mission, finished, p) && (p.announcement.Some? ==> WellFormed(p.announcement.value))
    ensures Truthful(mission, finished, TickHeartbeat(s, p, now).next)
    ensures forall m | m in TickHeartbeat(s, p, now).out :: SafeMessage(mission, finished, m)
  {
  }

  /** A coordinator frames ready tasks only: what it believes complete is. */
  lemma FramingIsReady(s: Settings, p: Participant, now: real, mission: Tasks, finished: set<TaskId>)
    requires Truthful(mission, finished, p)
    ensures AllReady(mission, finished, Framing(s, p, now).taskIds)
  {
    SortedIsSorted(AvailableTasks(p));
    forall t | t in Framing(s, p, now).taskIds ensures Ready(mission, finished, t) {
      assert t in Available(p.tasks, p.completed.Keys * p.tasks.Keys);
    }
  }

  lemma TickCoordinatorKeepsTruth(s: Settings, p: Participant, now: real, benefit: TaskId -> real, mission: Tasks,
                                  finished: set<TaskId>)
    requires Sane(p) && Truthful(mission, finished, p) && !LookingRaises(s, p, now)
    ensures Truthful(mission, finished, TickCoordinator(s, p, now, benefit).next)
    ensures forall m | m in TickCoordinator(s, p, now, benefit).out :: SafeMessage(mission, finished, m)
  {
    if Frames(s, p, now) {
      FramingIsWellFormed(s, p, now);
      FramingIsReady(s, p, now, mission, finished);
      AdoptKeepsTruth(s.id, p, Framing(s, p, now), now, benefit, mission, finished);
    }
  }

  lemma TickKeepsSafe(s: Settings, p: Participant, now: real, benefit: TaskId -> real, mission: Tasks,
                      finished: set<TaskId>)
    requires SafeRobot(mission, finished, p) && !TickRaises(s, p, now)
    ensures SafeRobot(mission, finished, Tick(s, p, now, benefit).next)
    ensures forall m | m in Tick(s, p, now, benefit).out :: SafeMessage(mission, finished, m)
  {
    TickKeepsSane(s, p, now, benefit);
    RefreshKeepsSane(s, p, now);
    RefreshKeepsTruth(s, p, now, mission, finished);
    var round := TickRound(s, Refresh(s, p, now), now);
    TickRoundKeepsSane(s, Refresh(s, p, now), now);
    TickRoundKeepsTruth(s, Refresh(s, p, now), now, mission, finished);
    var beat := TickHeartbeat(s, round.next, now);
    TickHeartbeatKeepsSane(s, round.next, now);
    TickHeartbeatKeepsTruth(s, round.next, now, mission, finished);
    TickCoordinatorKeepsTruth(s, beat.next, now, benefit, mission, finished);
  }

  lemma FinishKeepsSafe(s: Settings, p: Participant, t: TaskId, now: real, mission: Tasks, finished: set<TaskId>)
    requires SafeRobot(mission, finished, p) && t in finished
    ensures SafeRobot(mission, finished, TaskFinished(s, p, t, now).next)
  {
  }

  /** Safety survives when more tasks are finished. */
  lemma SafeIsStable(p: Participant, mission: Tasks, finished: set<TaskId>, finished': set<TaskId>)
    requires SafeRobot(mission, finished, p) && finished <= finished'
    ensures SafeRobot(mission, finished', p)
  {
  }

  // ------------------------------------------------------ what a tick announces

  function Announcements(out: set<Message>): set<RoundAnnouncement> {
    set m | m in out && m.Announce? :: m.announcement
  }

  /** Every announcement in `out` is the one held. */
  ghost predicate OnlyRepeats(out: set<Message>, held: Option<RoundAnnouncement>) {
    forall m | m in out && m.Announce? :: held == Some(m.announcement)
  }

  lemma RoundRepeats(s: Settings, p: Participant, now: real)
    requires Sane(p)
    ensures OnlyRepeats(TickRound(s, p, now).out, p.announcement)
    ensures TickRound(s, p, now).next.announcement == p.announcement
  {
  }

  lemma HeartbeatRepeats(s: Settings, p: Participant, now: real)
    ensures OnlyRepeats(TickHeartbeat(s, p, now).out, p.announcement)
    ensures TickHeartbeat(s, p, now).next.announcement == p.announcement
  {
  }

  /** A framing is newer than everything seen, carries the framer's id, and is adopted. */
  ghost predicate Announces(s: Settings, p: Participant, r: Reaction, a: RoundAnnouncement) {
    && a.coordinator == s.id && a.roundId == p.maxRoundSeen + 1
    && r.next.announcement == Some(a) && Announce(a) in r.out
    && forall m | m in r.out && m.Announce? :: m.announcement == a || p.announcement == Some(m.announcement)
  }

  lemma CoordinatorAnnounces(s: Settings, p: Participant, now: real, benefit: TaskId -> real)
    requires Sane(p) && !LookingRaises(s, p, now)
    ensures var r := TickCoordinator(s, p, now, benefit);
            if Frames(s, p, now) then Announces(s, p, r, Framing(s, p, now))
            else r.next == p && r.out == {}
  {
    if Frames(s, p, now) {
      FramingIsWellFormed(s, p, now);
      AdoptFields(s.id, p, Framing(s, p, now), now, benefit);
    }
  }

  lemma RepeatsThenAnnounces(s: Settings, p: Participant, q: Participant, first: set<Message>, last: Reaction,
                             a: RoundAnnouncement)
    requires OnlyRepeats(first, p.announcement) && q.announcement == p.announcement && q.maxRoundSeen == p.maxRoundSeen
    requires Announces(s, q, last, a)
    ensures Announces(s, p, Reaction(last.next, first + last.out), a)
  {
  }

  /** Before the coordinator's part, a tick repeats the announcement held and keeps it. */
  lemma OwnPartRepeats(s: Settings, p: Participant, now: real)
    requires Sane(p)
    ensures OnlyRepeats(TickOwn(s, p, now).out, p.announcement)
    ensures TickOwn(s, p, now).next.announcement == p.announcement
  {
    var q := Refresh(s, p, now);
    RefreshKeepsSane(s, p, now);
    RoundRepeats(s, q, now);
    HeartbeatRepeats(s, TickRound(s, q, now).next, now);
  }

  lemma SaneRoundsAgree(p: Participant, q: Participant)
    requires Sane(p) && Sane(q) && p.announcement == q.announcement
    ensures p.maxRoundSeen == q.maxRoundSeen
  {
  }

  /** A tick repeats the announcement held, or frames one new round. */
  lemma TickAnnounces(s: Settings, p: Participant, now: real, benefit: TaskId -> real)
    requires Sane(p) && !TickRaises(s, p, now)
    ensures var r := Tick(s, p, now, benefit);
            (OnlyRepeats(r.out, p.announcement) && r.next.announcement == p.announcement)
            || exists a :: Announces(s, p, r, a)
  {
    var own := TickOwn(s, p, now);
    OwnPartRepeats(s, p, now);
    TickOwnKeepsSane(s, p, now);
    SaneRoundsAgree(p, own.next);
    CoordinatorAnnounces(s, own.next, now, benefit);
    var last := TickCoordinator(s, own.next, now, benefit);
    assert Tick(s, p, now, benefit) == Reaction(last.next, own.out + last.out);
    if Frames(s, own.next, now) {
      RepeatsThenAnnounces(s, p, own.next, own.out, last, Framing(s, own.next, now));
    }
  }

  // ------------------------------------------------------ what a tick means to the host

  /** The host's record after it has taken note of aborts and then of dispatches. */
  function HostAfter(record: Option<TaskId>, aborts: seq<TaskId>, dispatches: seq<TaskId>): Option<TaskId> {
    if dispatches != [] then Some(dispatches[|dispatches| - 1])
    else if aborts != [] then None
    else record
  }

  ghost predicate HostAgrees(record: Option<TaskId>, p: Participant) {
    HostAfter(record, p.aborts, p.dispatches) == p.executing
  }

  /** The host has taken note. */
  function Popped(p: Participant): Participant {
    p.(dispatches := [], aborts := [])
  }

  ghost predicate NothingPending(p: Participant) {
    p.dispatches == [] && p.aborts == []
  }

  lemma RefreshAndHost(s: Settings, p: Participant, now: real, record: Option<TaskId>)
    requires NothingPending(p) && record == p.executing
    ensures HostAgrees(record, Refresh(s, p, now))
  {
  }

  lemma SettleAndHost(s: Settings, p: Participant, won: Option<TaskId>, now: real, record: Option<TaskId>)
    requires HostAgrees(record, p)
    ensures HostAgrees(record, Settle(s, p, won, now).next)
  {
    if won.Some? && won.value >= 0 && won.value !in p.completed {
    }
  }

  lemma AgentAndHost(s: Settings, p: Participant, now: real, record: Option<TaskId>)
    requires Sane(p) && HostAgrees(record, p) && p.agent.Some?
    ensures HostAgrees(record, TickAgent(s, p, now).next)
  {
    var h := p.agent.value;
    var st := TickState(s.id, h.row, h.config, h.st);
    SettleAndHost(s, p.(agent := Some(h.(st := st))), st.assignment, now, record);
  }

  lemma RoundAndHost(s: Settings, p: Participant, now: real, record: Option<TaskId>)
    requires Sane(p) && HostAgrees(record, p)
    ensures HostAgrees(record, TickRound(s, p, now).next)
  {
    if p.agent.Some? {
      AgentAndHost(s, p, now, record);
    } else if p.relay.Some? && p.relayDirty {
    }
  }

  lemma HeartbeatAndHost(s: Settings, p: Participant, now: real, record: Option<TaskId>)
    requires HostAgrees(record, p)
    ensures HostAgrees(record, TickHeartbeat(s, p, now).next)
  {
  }

  lemma CoordinatorAndHost(s: Settings, p: Participant, now: real, benefit: TaskId -> real, record: Option<TaskId>)
    requires Sane(p) && HostAgrees(record, p) && !LookingRaises(s, p, now)
    ensures HostAgrees(record, TickCoordinator(s, p, now, benefit).next)
  {
    if Frames(s, p, now) {
      FramingIsWellFormed(s, p, now);
      AdoptFields(s.id, p, Framing(s, p, now), now, benefit);
    }
  }

  /** Through aborts and dispatches that overwrite, the host's record stays what the robot executes. */
  lemma TickAndHost(s: Settings, p: Participant, now: real, benefit: TaskId -> real, record: Option<TaskId>)
    requires Sane(p) && NothingPending(p) && record == p.executing && !TickRaises(s, p, now)
    ensures HostAgrees(record, Tick(s, p, now, benefit).next)
  {
    var q := Refresh(s, p, now);
    RefreshKeepsSane(s, p, now);
    RefreshAndHost(s, p, now, record);
    var round := TickRound(s, q, now);
    TickRoundKeepsSane(s, q, now);
    RoundAndHost(s, q, now, record);
    var beat := TickHeartbeat(s, round.next, now);
    TickHeartbeatKeepsSane(s, round.next, now);
    HeartbeatAndHost(s, round.next, now, record);
    CoordinatorAndHost(s, beat.next, now, benefit, record);
  }
}
