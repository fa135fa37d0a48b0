/**
 One robot's coordination state: what each message and each part of a tick does
 to it. The functions specify the methods of `CoordinationParticipant`.
 */
module Participation {
  import opened Types
  import opened Prices
  import opened Engine
  import opened Dag
  import opened IdOrder
  import opened RoundOffers
  import opened Messages
  import opened Leases
  import opened Heartbeats

  /** What never changes: the robot's id, where it starts from, and its timing and auction parameters. */
  datatype Settings = Settings(id: AgentId, position: Position, workload: real, heartbeatInterval: real, timeout: real,
                               leaseDuration: real, roundConfig: RoundConfig, roundTimeout: real)

  /** The auction agent hosted for a round. */
  datatype Hosted = Hosted(row: Row, config: RoundConfig, st: AgentState)

  datatype Flag = Flag(stamp: real, idle: bool)

  /** Everything a robot keeps up to date: it hosts an agent for the current round, or relays its prices. */
  datatype Participant = Participant(
    position: Position, workload: real,
    tasks: Tasks, unsupported: set<TaskId>, completed: map<TaskId, AgentId>, executing: Option<TaskId>,
    idleFlags: map<AgentId, Flag>, announcement: Option<RoundAnnouncement>, roundOpenedAt: real,
    agent: Option<Hosted>, relay: Option<Table>, relayDirty: bool, maxRoundSeen: int,
    lastHeartbeat: Option<real>, dispatches: seq<TaskId>, aborts: seq<TaskId>,
    seen: Seen, leases: LeaseMap)

  function Start(s: Settings): Participant {
    Participant(s.position, s.workload, map[], {}, map[], None, map[], None, 0.0, None, None, false, 0, None, [], [],
                map[], map[])
  }

  // ------------------------------------------------------ well-formedness

  /** What a framed round promises: tasks, each once and none an idle slot, and parameters an auction accepts. */
  ghost predicate WellFormed(a: RoundAnnouncement) {
    && a.roundId >= 1
    && a.taskIds != [] && NoDuplicates(a.taskIds) && (forall t | t in a.taskIds :: t >= 0)
    && a.idleSlots >= 0
    && a.epsilon > 0.0 && a.quiescenceRounds >= 1
  }

  /** An agent can be created for it: there is something to bid on, and the auction accepts the parameters. */
  predicate Biddable(a: RoundAnnouncement) {
    a.taskIds != [] && a.epsilon > 0.0 && a.quiescenceRounds >= 1
  }

  /** The hosted agent bids for tasks and idle slots of the announcement only. */
  ghost predicate HostedOk(h: Hosted, a: RoundAnnouncement) {
    Fits(h.row, h.st) && forall t | t in h.st.table :: t < 0 || t in a.taskIds
  }

  /**
   The highest round seen is the one adopted, and the hosted agent or the relay
   belongs to it.
   */
  ghost predicate SaneRound(announcement: Option<RoundAnnouncement>, agent: Option<Hosted>, relay: Option<Table>,
                            maxRoundSeen: int)
  {
    match announcement
    case None => agent.None? && relay.None? && maxRoundSeen == 0
    case Some(a) => WellFormed(a) && maxRoundSeen == a.roundId && (agent.Some? ==> HostedOk(agent.value, a))
  }

  ghost predicate RealIds(tasks: Tasks) {
    forall t | t in tasks :: t >= 0
  }

  /** What holds as long as every announcement heard is well formed and every task id is one of a real task. */
  ghost predicate Sane(p: Participant) {
    SaneRound(p.announcement, p.agent, p.relay, p.maxRoundSeen) && RealIds(p.tasks) && Keyed(p.tasks) && Filed(p.leases)
  }

  ghost predicate WorkableRound(announcement: Option<RoundAnnouncement>, agent: Option<Hosted>, relay: Option<Table>) {
    && (announcement.None? ==> agent.None? && relay.None?)
    && (agent.Some? ==> Fits(agent.value.row, agent.value.st))
  }

  /** What holds whatever is heard. */
  ghost predicate Workable(p: Participant) {
    WorkableRound(p.announcement, p.agent, p.relay) && Keyed(p.tasks) && Filed(p.leases)
  }

  // ------------------------------------------------------ messages

  function AddTask(p: Participant, task: Task): Participant {
    if task.Collaborative() then p.(unsupported := p.unsupported + {task.id}) else p.(tasks := p.tasks[task.id := task])
  }

  /** Liveness goes by receipt, the idle flag by the sender's stamp. */
  function OnHeartbeat(id: AgentId, p: Participant, sender: AgentId, stamp: real, idle: bool, now: real): Participant {
    if sender == id then p
    else
      var flags := if sender !in p.idleFlags || stamp > p.idleFlags[sender].stamp
                   then p.idleFlags[sender := Flag(stamp, idle)] else p.idleFlags;
      p.(seen := Recorded(p.seen, sender, now), idleFlags := flags)
  }

  /** The keys of a dictionary filled in this order. */
  function Firsts(s: seq<TaskId>): (keys: seq<TaskId>)
    ensures NoDuplicates(keys) && forall t :: t in keys <==> t in s
  {
    if s == [] then []
    else
      var keys, last := Firsts(s[..|s| - 1]), s[|s| - 1];
      assert s == s[..|s| - 1] + [last];
      if last in keys then keys else keys + [last]
  }

  lemma {:induction false} FirstsOfDistinct(s: seq<TaskId>)
    requires NoDuplicates(s)
    ensures Firsts(s) == s
  {
    if s != [] {
      FirstsOfDistinct(s[..|s| - 1]);
      assert s == s[..|s| - 1] + [s[|s| - 1]];
    }
  }

  /** The idle slots of a round. */
  function Slots(a: RoundAnnouncement): seq<TaskId> {
    Sentinels(if a.idleSlots > 0 then a.idleSlots else 0)
  }

  /** Benefits of the announced tasks, 0 for tasks not yet known. */
  function RealRow(tasks: Tasks, taskIds: seq<TaskId>, benefit: TaskId -> real): Row {
    Row(Firsts(taskIds), t => if t in tasks then benefit(t) else 0.0)
  }

  /** The row an agent bids with: idle slots are worth less than every task. */
  function BenefitRow(tasks: Tasks, a: RoundAnnouncement, benefit: TaskId -> real): Row
    requires a.taskIds != []
  {
    var row := RealRow(tasks, a.taskIds, benefit);
    assert a.taskIds[0] in row.order;
    var floor := Floor(row);
    Row(Firsts(a.taskIds + Slots(a)), t => if t in Slots(a) then floor else row.benefit(t))
  }

  lemma BenefitRowIsOver(tasks: Tasks, a: RoundAnnouncement, benefit: TaskId -> real)
    requires a.taskIds != []
    ensures Over(BenefitRow(tasks, a, benefit), RoundTasks(a))
  {
    assert a.taskIds[0] in a.taskIds + Slots(a);
  }

  /** For a well-formed announcement the row is the one the allocator would offer. */
  lemma BenefitRowIsPadded(tasks: Tasks, a: RoundAnnouncement, benefit: TaskId -> real)
    requires WellFormed(a)
    ensures IsPadded(RealRow(tasks, a.taskIds, benefit), a.idleSlots, BenefitRow(tasks, a, benefit))
  {
    FirstsOfDistinct(a.taskIds);
    DistinctOffer(a.taskIds, Slots(a));
    FirstsOfDistinct(a.taskIds + Slots(a));
  }

  lemma DistinctOffer(taskIds: seq<TaskId>, slots: seq<TaskId>)
    requires NoDuplicates(taskIds) && NoDuplicates(slots)
    requires (forall t | t in taskIds :: t >= 0) && forall t | t in slots :: t < 0
    ensures NoDuplicates(taskIds + slots)
  {
    forall i, j | 0 <= i < j < |taskIds + slots| ensures (taskIds + slots)[i] != (taskIds + slots)[j] {
      if i < |taskIds| <= j {
        assert taskIds[i] in taskIds && slots[j - |taskIds|] in slots;
      }
    }
  }

  /** The tasks and idle slots of a round. */
  function RoundTasks(a: RoundAnnouncement): set<TaskId> {
    set t | t in a.taskIds + Slots(a)
  }

  function NewAgent(tasks: Tasks, a: RoundAnnouncement, benefit: TaskId -> real): Hosted
    requires Biddable(a)
  {
    Hosted(BenefitRow(tasks, a, benefit), RoundConfig(a.epsilon, a.quiescenceRounds), InitialState(RoundTasks(a)))
  }

  /** The round is open from now on; adoption time approximates its opening. */
  function OpenRound(p: Participant, a: RoundAnnouncement, now: real): Participant {
    p.(announcement := Some(a), maxRoundSeen := if a.roundId > p.maxRoundSeen then a.roundId else p.maxRoundSeen,
       roundOpenedAt := now)
  }

  function BidInRound(p: Participant, a: RoundAnnouncement, benefit: TaskId -> real): Participant
    requires Biddable(a)
  {
    p.(agent := Some(NewAgent(p.tasks, a, benefit)), relay := None)
  }

  function RelayRound(p: Participant, a: RoundAnnouncement): Participant {
    p.(agent := None, relay := Some(InitialTable(RoundTasks(a))), relayDirty := false)
  }

  predicate Adopts(p: Participant, a: RoundAnnouncement) {
    p.announcement.Some? ==> p.announcement.value.Precedes(a)
  }

  /** Creating the agent raises: the round is open by then, but whoever bid or relayed before still does. */
  predicate AnnouncementRaises(id: AgentId, p: Participant, a: RoundAnnouncement) {
    Adopts(p, a) && id in a.participants && !Biddable(a)
  }

  /** Adopt an announcement unless a better one is held: bid in its round, or relay its prices. */
  function OnAnnouncement(id: AgentId, p: Participant, a: RoundAnnouncement, now: real,
                          benefit: TaskId -> real): Participant
  {
    if !Adopts(p, a) then p
    else if AnnouncementRaises(id, p, a) then OpenRound(p, a, now)
    else if id in a.participants then BidInRound(OpenRound(p, a, now), a, benefit)
    else RelayRound(OpenRound(p, a, now), a)
  }

  /** The relay takes in prices, and remembers whether they were news. */
  function RelayPrices(p: Participant, entries: Table): Participant
    requires p.relay.Some?
  {
    var merged := Join(p.relay.value, entries);
    p.(relay := Some(merged), relayDirty := p.relayDirty || merged != p.relay.value)
  }

  /** Prices count only for the round they belong to. */
  function OnGossip(id: AgentId, p: Participant, roundId: int, inner: PriceTableMessage): Participant {
    if p.announcement.None? || roundId != p.announcement.value.roundId then p
    else if p.agent.Some? then p.(agent := Some(p.agent.value.(st := Handle(id, p.agent.value.st, inner))))
    else if p.relay.Some? then RelayPrices(p, inner.entries)
    else p
  }

  function OnLeaseRenewal(s: Settings, p: Participant, t: TaskId, holder: AgentId, now: real): Participant {
    p.(leases := Hear(p.leases, s.leaseDuration, t, holder, now))
  }

  /** The first completer heard of stays on record, and the task's lease ends. */
  function OnCompleted(p: Participant, t: TaskId, completer: AgentId): Participant {
    p.(completed := if t in p.completed then p.completed else p.completed[t := completer], leases := p.leases - {t})
  }

  function HandleMessage(s: Settings, p: Participant, m: Message, now: real, benefit: TaskId -> real): Participant {
    match m
    case Heartbeat(sender, stamp, idle) => OnHeartbeat(s.id, p, sender, stamp, idle, now)
    case Announce(a) => OnAnnouncement(s.id, p, a, now, benefit)
    case RoundGossip(roundId, inner) => OnGossip(s.id, p, roundId, inner)
    case LeaseRenewal(t, holder, stamp) => OnLeaseRenewal(s, p, t, holder, now)
    case TaskCompleted(t, completer, stamp) => OnCompleted(p, t, completer)
    case TaskInjected(task, stamp) => AddTask(p, task)
  }

  // ------------------------------------------------------ tick

  predicate IsIdle(p: Participant) {
    p.executing.None? && p.agent.None?
  }

  /** Expired leases go, and with them work that someone else now holds. */
  function Refresh(s: Settings, p: Participant, now: real): Participant {
    var q := p.(seen := Recorded(p.seen, s.id, now), leases := Swept(p.leases, now));
    if p.executing.Some? && Holder(q.leases, p.executing.value).Some?
       && Holder(q.leases, p.executing.value) != Some(s.id)
    then q.(aborts := p.aborts + [p.executing.value], executing := None)
    else q
  }

  /** A new state and what is sent. */
  datatype Reaction = Reaction(next: Participant, out: set<Message>)

  /** The auction of the round is over: execute the task won, unless it is known to be done. */
  function Settle(s: Settings, p: Participant, won: Option<TaskId>, now: real): Reaction {
    var q := p.(agent := None);
    if won.Some? && won.value >= 0 && won.value !in p.completed then
      Reaction(q.(leases := Granted(p.leases, s.leaseDuration, won.value, s.id, now), executing := won,
                  dispatches := p.dispatches + [won.value]),
               {LeaseRenewal(won.value, s.id, now)})
    else Reaction(q, {})
  }

  /** The hosted agent ticks; what it says is gossip of the round. */
  function TickAgent(s: Settings, p: Participant, now: real): Reaction
    requires Workable(p) && p.agent.Some?
  {
    var h, roundId := p.agent.value, p.announcement.value.roundId;
    var st := TickState(s.id, h.row, h.config, h.st);
    var q := p.(agent := Some(h.(st := st)));
    match Broadcast(s.id, h.config, st)
    case Some(m) => Reaction(q, {RoundGossip(roundId, m)})
    case None => Settle(s, q, st.assignment, now)
  }

  /** Tick the hosted agent, or pass on prices the relay has learned. */
  function TickRound(s: Settings, p: Participant, now: real): Reaction
    requires Workable(p)
  {
    if p.agent.Some? then TickAgent(s, p, now)
    else if p.relay.Some? && p.relayDirty then
      Reaction(p.(relayDirty := false),
               {RoundGossip(p.announcement.value.roundId, PriceTableMessage(s.id, p.relay.value))})
    else Reaction(p, {})
  }

  /** The heartbeat, the robot's own framing, its lease, and all completions it knows. */
  function SendHeartbeat(s: Settings, p: Participant, now: real): Reaction {
    var own := if p.announcement.Some? && p.announcement.value.coordinator == s.id
               then {Announce(p.announcement.value)} else {};
    var lease := if p.executing.Some? then {LeaseRenewal(p.executing.value, s.id, now)} else {};
    var done := set t | t in p.completed :: TaskCompleted(t, p.completed[t], now);
    var leases :=
      if p.executing.Some? then Renewed(p.leases, s.leaseDuration, p.executing.value, s.id, now) else p.leases;
    Reaction(p.(lastHeartbeat := Some(now), leases := leases), {Heartbeat(s.id, now, IsIdle(p))} + own + lease + done)
  }

  /** A heartbeat is due once per interval. */
  function TickHeartbeat(s: Settings, p: Participant, now: real): Reaction {
    if p.lastHeartbeat.Some? && now - p.lastHeartbeat.value < s.heartbeatInterval then Reaction(p, {})
    else SendHeartbeat(s, p, now)
  }

  // ------------------------------------------------------ coordinator

  /** The lowest id alive coordinates. */
  predicate IsCoordinator(s: Settings, p: Participant, now: real) {
    forall r | r in Alive(p.seen, s.timeout, now) :: s.id <= r
  }

  /** A round is open while its tasks are neither leased nor done, unless it timed out. */
  predicate RoundOpen(s: Settings, p: Participant, now: real)
    requires p.announcement.Some?
  {
    p.agent.Some? ||
    (now - p.roundOpenedAt <= s.roundTimeout
     && exists t :: t in p.announcement.value.taskIds && t !in p.completed && t !in p.leases)
  }

  /** Known tasks whose prerequisites are complete and that nobody holds. */
  function AvailableTasks(p: Participant): set<TaskId> {
    Available(p.tasks, p.completed.Keys * p.tasks.Keys) - p.leases.Keys
  }

  function KnownIdle(s: Settings, p: Participant, now: real): set<AgentId> {
    (set r | r in p.idleFlags && p.idleFlags[r].idle && IsAlive(p.seen, s.timeout, r, now))
    + (if IsIdle(p) then {s.id} else {})
  }

  /** A new round over the available tasks and the idle robots. */
  function Framing(s: Settings, p: Participant, now: real): RoundAnnouncement {
    var available, idle := SortedIds(AvailableTasks(p)), SortedIds(KnownIdle(s, p, now));
    RoundAnnouncement(p.maxRoundSeen + 1, s.id, available, idle,
                      if |idle| > |available| then |idle| - |available| else 0,
                      s.roundConfig.epsilon, s.roundConfig.quiescenceRounds)
  }

  predicate Frames(s: Settings, p: Participant, now: real) {
    && IsCoordinator(s, p, now)
    && (p.announcement.Some? ==> !RoundOpen(s, p, now))
    && AvailableTasks(p) != {} && KnownIdle(s, p, now) != {}
  }

  /** What a robot frames names some tasks, each once, with parameters an auction accepts. */
  lemma FramingIsBiddable(s: Settings, p: Participant, now: real)
    requires Frames(s, p, now)
    ensures Biddable(Framing(s, p, now)) && NoDuplicates(Framing(s, p, now).taskIds)
    ensures forall t | t in Framing(s, p, now).taskIds :: t in AvailableTasks(p)
  {
    SortedIsSorted(AvailableTasks(p));
  }

  lemma FramingIsWellFormed(s: Settings, p: Participant, now: real)
    requires Frames(s, p, now) && Sane(p)
    ensures WellFormed(Framing(s, p, now))
    ensures forall t | t in Framing(s, p, now).taskIds :: t in AvailableTasks(p)
  {
    FramingIsBiddable(s, p, now);
  }

  /**
   It is this robot's turn to look for tasks, and those it knows are no DAG: looking for
   the available ones raises.
   */
  ghost predicate LookingRaises(s: Settings, p: Participant, now: real) {
    IsCoordinator(s, p, now) && (p.announcement.Some? ==> !RoundOpen(s, p, now)) && p.tasks != map[] && !IsDag(p.tasks)
  }

  /** The known tasks are looked at only when it is this robot's turn. */
  method LookForTasks(s: Settings, p: Participant, now: real) returns (raised: bool)
    requires Keyed(p.tasks)
    ensures raised <==> LookingRaises(s, p, now)
  {
    if !IsCoordinator(s, p, now) || (p.announcement != None && RoundOpen(s, p, now)) || p.tasks == map[] {
      return false;
    }
    var dag := CheckDag(p.tasks);
    return !dag.Valid?;
  }

  /** Frame a round if it is this robot's turn, and adopt it. */
  function TickCoordinator(s: Settings, p: Participant, now: real, benefit: TaskId -> real): Reaction
    requires !LookingRaises(s, p, now)
  {
    if Frames(s, p, now) then
      Reaction(OnAnnouncement(s.id, p, Framing(s, p, now), now, benefit), {Announce(Framing(s, p, now))})
    else Reaction(p, {})
  }

  lemma FramingTurn(s: Settings, p: Participant, now: real, benefit: TaskId -> real)
    requires Frames(s, p, now) && !LookingRaises(s, p, now)
    ensures var a := Framing(s, p, now);
            TickCoordinator(s, p, now, benefit) == Reaction(OnAnnouncement(s.id, p, a, now, benefit), {Announce(a)})
  {
  }

  /** A tick before the coordinator's part. */
  function TickOwn(s: Settings, p: Participant, now: real): (r: Reaction)
    requires Workable(p)
    ensures Workable(r.next)
  {
    RefreshKeepsWorkable(s, p, now);
    var round := TickRound(s, Refresh(s, p, now), now);
    TickRoundKeepsWorkable(s, Refresh(s, p, now), now);
    var beat := TickHeartbeat(s, round.next, now);
    TickHeartbeatKeepsWorkable(s, round.next, now);
    Reaction(beat.next, round.out + beat.out)
  }

  /** The coordinator's part of the tick raises, and what the tick would have sent is lost. */
  ghost predicate TickRaises(s: Settings, p: Participant, now: real)
    requires Workable(p)
  {
    LookingRaises(s, TickOwn(s, p, now).next, now)
  }

  function Tick(s: Settings, p: Participant, now: real, benefit: TaskId -> real): Reaction
    requires Workable(p) && !TickRaises(s, p, now)
  {
    var own := TickOwn(s, p, now);
    var framed := TickCoordinator(s, own.next, now, benefit);
    Reaction(framed.next, own.out + framed.out)
  }

  /** The task is no longer executed, known as completed, and its lease is over. */
  function Done(s: Settings, p: Participant, t: TaskId): Participant {
    p.(executing := None, completed := p.completed[t := s.id], leases := Released(p.leases, t, s.id))
  }

  /** The robot has worked on the task, where the task is. */
  function WorkedOn(p: Participant, task: Task): Participant {
    p.(workload := p.workload + task.duration, position := if task.position != [] then task.position else p.position)
  }

  /**
   The host reports that the task is done. For a task the robot was never told
   of this raises after the first three updates, and nothing is sent.
   */
  function TaskFinished(s: Settings, p: Participant, t: TaskId, now: real): Reaction {
    if t in p.tasks then Reaction(WorkedOn(Done(s, p, t), p.tasks[t]), {TaskCompleted(t, s.id, now)})
    else Reaction(Done(s, p, t), {})
  }

  // ------------------------------------------------------ everything keeps the state workable

  lemma HandleKeepsWorkable(s: Settings, p: Participant, m: Message, now: real, benefit: TaskId -> real)
    requires Workable(p)
    ensures Workable(HandleMessage(s, p, m, now, benefit))
  {
    match m
    case Announce(a) => AdoptKeepsWorkable(s.id, p, a, now, benefit);
    case RoundGossip(roundId, inner) => GossipKeepsWorkable(s.id, p, roundId, inner);
    case LeaseRenewal(t, holder, stamp) => HearKeepsFiled(p.leases, s.leaseDuration, t, holder, now);
    case TaskInjected(task, stamp) => AddKeepsWorkable(p, task);
    case _ =>
  }

  lemma AddKeepsWorkable(p: Participant, task: Task)
    requires Workable(p)
    ensures Workable(AddTask(p, task))
  {
  }

  lemma AdoptKeepsWorkable(id: AgentId, p: Participant, a: RoundAnnouncement, now: real, benefit: TaskId -> real)
    requires Workable(p)
    ensures Workable(OnAnnouncement(id, p, a, now, benefit))
  {
    if !Adopts(p, a) {
    } else if AnnouncementRaises(id, p, a) {
    } else if id in a.participants {
      NewAgentFits(p.tasks, a, benefit);
    }
  }

  lemma NewAgentFits(tasks: Tasks, a: RoundAnnouncement, benefit: TaskId -> real)
    requires Biddable(a)
    ensures Fits(NewAgent(tasks, a, benefit).row, NewAgent(tasks, a, benefit).st)
  {
    BenefitRowIsOver(tasks, a, benefit);
  }

  lemma HandledAgentFits(id: AgentId, h: Hosted, inner: PriceTableMessage)
    requires Fits(h.row, h.st)
    ensures Fits(h.row, Handle(id, h.st, inner))
  {
  }

  lemma TickedAgentFits(id: AgentId, h: Hosted)
    requires Fits(h.row, h.st)
    ensures Fits(h.row, TickState(id, h.row, h.config, h.st))
  {
    BidLeavesSlack(id, h.row, h.config, h.st);
  }

  lemma GossipKeepsWorkable(id: AgentId, p: Participant, roundId: int, inner: PriceTableMessage)
    requires Workable(p)
    ensures Workable(OnGossip(id, p, roundId, inner))
  {
    if p.announcement.None? || roundId != p.announcement.value.roundId {
    } else if p.agent.Some? {
      HandledAgentFits(id, p.agent.value, inner);
    }
  }

  lemma RefreshKeepsWorkable(s: Settings, p: Participant, now: real)
    requires Workable(p)
    ensures Workable(Refresh(s, p, now))
  {
  }

  lemma TickAgentKeepsWorkable(s: Settings, p: Participant, now: real)
    requires Workable(p) && p.agent.Some?
    ensures Workable(TickAgent(s, p, now).next)
  {
    var h := p.agent.value;
    var st := TickState(s.id, h.row, h.config, h.st);
    TickedAgentFits(s.id, h);
    SettleKeepsWorkable(s, p.(agent := Some(h.(st := st))), st.assignment, now);
  }

  lemma SettleKeepsWorkable(s: Settings, p: Participant, won: Option<TaskId>, now: real)
    requires Workable(p)
    ensures Workable(Settle(s, p, won, now).next)
  {
    if won.Some? && won.value >= 0 && won.value !in p.completed {
    }
  }

  lemma TickRoundKeepsWorkable(s: Settings, p: Participant, now: real)
    requires Workable(p)
    ensures Workable(TickRound(s, p, now).next)
  {
    if p.agent.Some? {
      TickAgentKeepsWorkable(s, p, now);
    }
  }

  lemma TickHeartbeatKeepsWorkable(s: Settings, p: Participant, now: real)
    requires Workable(p)
    ensures Workable(TickHeartbeat(s, p, now).next)
  {
  }

  // ------------------------------------------------------ everything keeps the state sane

  lemma NewAgentIsOk(tasks: Tasks, a: RoundAnnouncement, benefit: TaskId -> real)
    requires WellFormed(a)
    ensures HostedOk(NewAgent(tasks, a, benefit), a)
  {
    BenefitRowIsOver(tasks, a, benefit);
  }

  lemma HandledAgentIsOk(id: AgentId, h: Hosted, a: RoundAnnouncement, inner: PriceTableMessage)
    requires HostedOk(h, a)
    ensures HostedOk(h.(st := Handle(id, h.st, inner)), a)
  {
  }

  lemma TickedAgentIsOk(id: AgentId, h: Hosted, a: RoundAnnouncement)
    requires HostedOk(h, a)
    ensures HostedOk(h.(st := TickState(id, h.row, h.config, h.st)), a)
    ensures TickState(id, h.row, h.config, h.st).assignment.Some? ==>
              var t := TickState(id, h.row, h.config, h.st).assignment.value; t < 0 || t in a.taskIds
  {
    BidLeavesSlack(id, h.row, h.config, h.st);
  }

  lemma AdoptKeepsSane(id: AgentId, p: Participant, a: RoundAnnouncement, now: real, benefit: TaskId -> real)
    requires Sane(p) && WellFormed(a)
    ensures Sane(OnAnnouncement(id, p, a, now, benefit))
  {
    if !Adopts(p, a) {
    } else if id in a.participants {
      NewAgentIsOk(p.tasks, a, benefit);
    }
  }

  lemma GossipKeepsSane(id: AgentId, p: Participant, roundId: int, inner: PriceTableMessage)
    requires Sane(p)
    ensures Sane(OnGossip(id, p, roundId, inner))
  {
    if p.agent.Some? {
      HandledAgentIsOk(id, p.agent.value, p.announcement.value, inner);
    }
  }

  lemma HeartbeatKeepsSane(id: AgentId, p: Participant, sender: AgentId, stamp: real, idle: bool, now: real)
    requires Sane(p)
    ensures Sane(OnHeartbeat(id, p, sender, stamp, idle, now))
  {
    if sender == id {
    }
  }

  lemma RenewalKeepsSane(s: Settings, p: Participant, t: TaskId, holder: AgentId, now: real)
    requires Sane(p)
    ensures Sane(OnLeaseRenewal(s, p, t, holder, now))
  {
    HearKeepsFiled(p.leases, s.leaseDuration, t, holder, now);
  }

  lemma CompletionKeepsSane(p: Participant, t: TaskId, completer: AgentId)
    requires Sane(p)
    ensures Sane(OnCompleted(p, t, completer))
  {
  }

  lemma AddTaskKeepsSane(p: Participant, task: Task)
    requires Sane(p) && task.id >= 0
    ensures Sane(AddTask(p, task))
  {
    AddTaskKeepsIds(p.tasks, task);
    if task.Collaborative() {
    }
  }

  lemma HandleKeepsSane(s: Settings, p: Participant, m: Message, now: real, benefit: TaskId -> real)
    requires Sane(p) && (m.Announce? ==> WellFormed(m.announcement)) && (m.TaskInjected? ==> m.task.id >= 0)
    ensures Sane(HandleMessage(s, p, m, now, benefit))
  {
    match m
    case Heartbeat(sender, stamp, idle) => HeartbeatKeepsSane(s.id, p, sender, stamp, idle, now);
    case Announce(a) => AdoptKeepsSane(s.id, p, a, now, benefit);
    case RoundGossip(roundId, inner) => GossipKeepsSane(s.id, p, roundId, inner);
    case LeaseRenewal(t, holder, stamp) => RenewalKeepsSane(s, p, t, holder, now);
    case TaskCompleted(t, completer, stamp) => CompletionKeepsSane(p, t, completer);
    case TaskInjected(task, stamp) => AddTaskKeepsSane(p, task);
  }

  lemma AddTaskKeepsIds(tasks: Tasks, task: Task)
    requires RealIds(tasks) && task.id >= 0
    ensures RealIds(tasks[task.id := task])
  {
  }

  lemma HearKeepsFiled(leases: LeaseMap, duration: real, t: TaskId, holder: AgentId, now: real)
    requires Filed(leases)
    ensures Filed(Hear(leases, duration, t, holder, now))
  {
  }

  lemma RefreshKeepsSane(s: Settings, p: Participant, now: real)
    requires Sane(p)
    ensures Sane(Refresh(s, p, now))
  {
  }

  lemma SettleKeepsSane(s: Settings, p: Participant, won: Option<TaskId>, now: real)
    requires Sane(p)
    ensures Sane(Settle(s, p, won, now).next)
  {
    if won.Some? && won.value >= 0 && won.value !in p.completed {
    }
  }

  lemma TickAgentKeepsSane(s: Settings, p: Participant, now: real)
    requires Sane(p) && p.agent.Some?
    ensures Sane(TickAgent(s, p, now).next)
  {
    var h := p.agent.value;
    var st := TickState(s.id, h.row, h.config, h.st);
    TickedAgentIsOk(s.id, h, p.announcement.value);
    SettleKeepsSane(s, p.(agent := Some(h.(st := st))), st.assignment, now);
  }

  lemma TickRoundKeepsSane(s: Settings, p: Participant, now: real)
    requires Sane(p)
    ensures Sane(TickRound(s, p, now).next)
  {
    if p.agent.Some? {
      TickAgentKeepsSane(s, p, now);
    }
  }

  lemma TickHeartbeatKeepsSane(s: Settings, p: Participant, now: real)
    requires Sane(p)
    ensures Sane(TickHeartbeat(s, p, now).next)
  {
  }

  lemma TickOwnKeepsSane(s: Settings, p: Participant, now: real)
    requires Sane(p)
    ensures Sane(TickOwn(s, p, now).next)
  {
    RefreshKeepsSane(s, p, now);
    var round := TickRound(s, Refresh(s, p, now), now);
    TickRoundKeepsSane(s, Refresh(s, p, now), now);
    TickHeartbeatKeepsSane(s, round.next, now);
  }

  lemma TickKeepsSane(s: Settings, p: Participant, now: real, benefit: TaskId -> real)
    requires Sane(p) && !TickRaises(s, p, now)
    ensures Sane(Tick(s, p, now, benefit).next)
  {
    var own := TickOwn(s, p, now).next;
    TickOwnKeepsSane(s, p, now);
    if Frames(s, own, now) {
      FramingIsWellFormed(s, own, now);
      AdoptKeepsSane(s.id, own, Framing(s, own, now), now, benefit);
    }
  }
}
