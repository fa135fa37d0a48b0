/**
 A robot's share in the auction of a round: it hosts an agent for exactly the
 round it holds, or relays that round's prices; everything said in the round
 reaches the agent or the relay, and the relay passes on exactly what is news.
 */
module RoundHosting {
  import opened Types
  import opened Prices
  import opened Engine
  import opened Messages
  import opened RoundOffers
  import opened Participation
  import opened RobotLives
  import opened Coordinators

  // ------------------------------------------------------ what is said in a round

  /** The round held, and the agent or the relay that takes part in it. */
  datatype RoundPart = RoundPart(announcement: Option<RoundAnnouncement>, roundOpenedAt: real, agent: Option<Hosted>,
                                 relay: Option<Table>, relayDirty: bool)

  function RoundOf(p: Participant): RoundPart {
    RoundPart(p.announcement, p.roundOpenedAt, p.agent, p.relay, p.relayDirty)
  }

  /** Nothing but messages, and no announcement among them. */
  ghost predicate OnlyTalk(acts: seq<Act>) {
    forall k | 0 <= k < |acts| :: acts[k].Hears? && !acts[k].message.Announce?
  }

  /** What is said in this round, in order. */
  ghost function SaidIn(roundId: int, acts: seq<Act>): seq<PriceTableMessage> {
    if acts == [] then []
    else
      var rest := SaidIn(roundId, acts[..|acts| - 1]);
      match acts[|acts| - 1]
      case Hears(RoundGossip(id, inner), _, _) => if id == roundId then rest + [inner] else rest
      case _ => rest
  }

  function Tables(messages: seq<PriceTableMessage>): seq<Table> {
    seq(|messages|, k requires 0 <= k < |messages| => messages[k].entries)
  }

  lemma OtherTalkKeepsRound(s: Settings, p: Participant, m: Message, now: real, benefit: TaskId -> real)
    requires !m.Announce? && !m.RoundGossip?
    ensures RoundOf(HandleMessage(s, p, m, now, benefit)) == RoundOf(p)
  {
    match m
    case Heartbeat(r, stamp, idle) =>
    case LeaseRenewal(t, holder, stamp) =>
    case TaskCompleted(t, completer, stamp) =>
    case TaskInjected(task, stamp) =>
  }

  /** The agent takes in everything that is said in its round, and nothing else. */
  lemma {:induction false} TalkReachesAgent(s: Settings, p: Participant, acts: seq<Act>)
    requires Workable(p) && OnlyTalk(acts) && p.agent.Some?
    ensures var h, q := p.agent.value, Lived(s, p, acts);
            q.announcement == p.announcement
            && q.agent == Some(h.(st := HandleAll(s.id, h.st, SaidIn(p.announcement.value.roundId, acts))))
    decreases |acts|
  {
    if acts != [] {
      var init, act := acts[..|acts| - 1], acts[|acts| - 1];
      var q := Lived(s, p, init);
      TalkReachesAgent(s, p, init);
      if act.message.RoundGossip? {
        var said := SaidIn(p.announcement.value.roundId, acts);
        if act.message.roundId == p.announcement.value.roundId {
          assert said[..|said| - 1] == SaidIn(p.announcement.value.roundId, init);
        }
      } else {
        OtherTalkKeepsRound(s, q, act.message, act.now, act.benefit);
        assert RoundOf(After(s, q, act)) == RoundOf(q);
      }
    }
  }

  /** The relay's table is the least upper bound of everything said in the round, and it is dirty exactly after news. */
  lemma {:induction false} TalkReachesRelay(s: Settings, p: Participant, acts: seq<Act>)
    requires Workable(p) && OnlyTalk(acts) && p.announcement.Some? && p.agent.None? && p.relay.Some?
    ensures var table := JoinAll(p.relay.value, Tables(SaidIn(p.announcement.value.roundId, acts)));
            RoundOf(Lived(s, p, acts))
            == RoundOf(p).(relay := Some(table), relayDirty := p.relayDirty || table != p.relay.value)
    decreases |acts|
  {
    if acts != [] {
      var init, act := acts[..|acts| - 1], acts[|acts| - 1];
      var q := Lived(s, p, init);
      TalkReachesRelay(s, p, init);
      if act.message.RoundGossip? && act.message.roundId == p.announcement.value.roundId {
        RelayTakesIn(p.relay.value, SaidIn(p.announcement.value.roundId, init), act.message.inner);
      } else if !act.message.RoundGossip? {
        OtherTalkKeepsRound(s, q, act.message, act.now, act.benefit);
      }
    }
  }

  /** One more table: the join grows, and once it has left `ours` it never returns. */
  lemma RelayTakesIn(ours: Table, said: seq<PriceTableMessage>, m: PriceTableMessage)
    ensures var before, after := JoinAll(ours, Tables(said)), JoinAll(ours, Tables(said + [m]));
            after == Join(before, m.entries) && (after == ours ==> before == ours)
  {
    var tables := Tables(said + [m]);
    assert tables[..|tables| - 1] == Tables(said);
    var before, after := JoinAll(ours, Tables(said)), JoinAll(ours, tables);
    JoinAllIsLeastUpperBound(ours, Tables(said), before);
    JoinIsLeastUpperBound(before, m.entries, after);
    if after == ours {
      BelowIsAntisymmetric(before, ours);
    }
  }

  // ------------------------------------------------------ what a robot says in a round

  lemma RefreshKeepsRound(s: Settings, p: Participant, now: real)
    ensures RoundOf(Refresh(s, p, now)) == RoundOf(p)
  {
  }

  /** All gossip in `out` is this, if anything. */
  ghost predicate Gossips(out: set<Message>, roundId: int, said: Option<PriceTableMessage>) {
    forall id, m :: RoundGossip(id, m) in out <==> id == roundId && said == Some(m)
  }

  /** What a robot has to say in a round: its agent's broadcast, or what its relay has learned. */
  ghost function HasToSay(s: Settings, p: Participant): Option<PriceTableMessage>
    requires Workable(p)
  {
    if p.agent.Some? then
      var h := p.agent.value;
      Broadcast(s.id, h.config, TickState(s.id, h.row, h.config, h.st))
    else if p.relay.Some? && p.relayDirty then Some(PriceTableMessage(s.id, p.relay.value))
    else None
  }

  lemma RoundGossips(s: Settings, p: Participant, now: real)
    requires Workable(p) && p.announcement.Some?
    ensures Gossips(TickRound(s, p, now).out, p.announcement.value.roundId, HasToSay(s, p))
  {
  }

  lemma BeatsAreNoGossip(s: Settings, p: Participant, now: real)
    ensures forall m | m in TickHeartbeat(s, p, now).out :: !m.RoundGossip?
  {
  }

  /** A tick says in the round exactly what the robot has to say. */
  lemma TickGossips(s: Settings, p: Participant, now: real, benefit: TaskId -> real)
    requires Workable(p) && p.announcement.Some? && !TickRaises(s, p, now)
    ensures Gossips(Tick(s, p, now, benefit).out, p.announcement.value.roundId, HasToSay(s, p))
  {
    var own := TickOwn(s, p, now);
    OwnGossips(s, p, now);
    FramingIsNoGossip(s, own.next, now, benefit);
    NoMoreGossip(own.out, TickCoordinator(s, own.next, now, benefit).out, p.announcement.value.roundId, HasToSay(s, p));
  }

  lemma OwnGossips(s: Settings, p: Participant, now: real)
    requires Workable(p) && p.announcement.Some?
    ensures Gossips(TickOwn(s, p, now).out, p.announcement.value.roundId, HasToSay(s, p))
  {
    var q := Refresh(s, p, now);
    RefreshKeepsWorkable(s, p, now);
    RefreshKeepsRound(s, p, now);
    RoundGossips(s, q, now);
    BeatsAreNoGossip(s, TickRound(s, q, now).next, now);
    NoMoreGossip(TickRound(s, q, now).out, TickHeartbeat(s, TickRound(s, q, now).next, now).out,
                 p.announcement.value.roundId, HasToSay(s, p));
  }

  lemma FramingIsNoGossip(s: Settings, p: Participant, now: real, benefit: TaskId -> real)
    requires !LookingRaises(s, p, now)
    ensures forall m | m in TickCoordinator(s, p, now, benefit).out :: !m.RoundGossip?
  {
  }

  lemma NoMoreGossip(out: set<Message>, more: set<Message>, roundId: int, said: Option<PriceTableMessage>)
    requires Gossips(out, roundId, said) && forall m | m in more :: !m.RoundGossip?
    ensures Gossips(out + more, roundId, said)
  {
  }

  /**
   A relay passes on what it heard exactly if that was news: the least upper bound of what
   it knew and all that was said.
   */
  lemma RelayEchoesNews(s: Settings, p: Participant, acts: seq<Act>, now: real, benefit: TaskId -> real)
    requires Workable(p) && OnlyTalk(acts) && p.announcement.Some? && p.agent.None? && p.relay.Some? && !p.relayDirty
    requires !TickRaises(s, Lived(s, p, acts), now)
    ensures var roundId := p.announcement.value.roundId;
            var table := JoinAll(p.relay.value, Tables(SaidIn(roundId, acts)));
            Gossips(Tick(s, Lived(s, p, acts), now, benefit).out, roundId,
                    if table != p.relay.value then Some(PriceTableMessage(s.id, table)) else None)
  {
    TalkReachesRelay(s, p, acts);
    TickGossips(s, Lived(s, p, acts), now, benefit);
  }

  // ------------------------------------------------------ the right agent for the round

  /** An agent for the round held, if the robot takes part in it; a relay of its prices, if it does not. */
  ghost predicate Hosts(id: AgentId, r: RoundPart) {
    match r.announcement
    case None => r.agent.None? && r.relay.None?
    case Some(a) =>
      && (r.agent.Some? ==>
            && r.relay.None? && id in a.participants
            && r.agent.value.config.epsilon == a.epsilon
            && r.agent.value.config.quiescenceRounds == a.quiescenceRounds
            && Over(r.agent.value.row, RoundTasks(a)) && r.agent.value.st.table.Keys == RoundTasks(a))
      && (r.relay.Some? ==> r.agent.None? && id !in a.participants && r.relay.value.Keys == RoundTasks(a))
  }

  /** Adoption starts afresh: a new agent or a new relay for that round, open from now on. */
  lemma AdoptionStartsAfresh(id: AgentId, p: Participant, a: RoundAnnouncement, now: real, benefit: TaskId -> real)
    requires Adopts(p, a) && !AnnouncementRaises(id, p, a)
    ensures var r := RoundOf(OnAnnouncement(id, p, a, now, benefit));
            && Hosts(id, r) && r.announcement == Some(a) && r.roundOpenedAt == now
            && (if id in a.participants then r.agent.Some? && r.agent.value.st == InitialState(RoundTasks(a))
                else r.relay == Some(InitialTable(RoundTasks(a))) && !r.relayDirty)
  {
    var q := OpenRound(p, a, now);
    assert q.announcement == Some(a) && q.roundOpenedAt == now;
    if id in a.participants {
      BenefitRowIsOver(q.tasks, a, benefit);
      assert RoundOf(BidInRound(q, a, benefit))
          == RoundOf(q).(agent := Some(NewAgent(q.tasks, a, benefit)), relay := None);
    } else {
      assert RoundOf(RelayRound(q, a))
          == RoundOf(q).(agent := None, relay := Some(InitialTable(RoundTasks(a))), relayDirty := false);
    }
  }

  /** What a robot makes of a task: its benefit, or 0 while it does not know the task. */
  function Worth(p: Participant, benefit: TaskId -> real, t: TaskId): real {
    if t in p.tasks then benefit(t) else 0.0
  }

  lemma RowIsWorth(p: Participant, a: RoundAnnouncement, benefit: TaskId -> real)
    requires a.taskIds != []
    ensures var row := RealRow(p.tasks, a.taskIds, benefit);
            && (forall u :: u in row.order <==> u in a.taskIds)
            && (forall t :: row.benefit(t) == Worth(p, benefit, t))
  {
  }

  /** The agent bids what the tasks are worth to the robot, and for idle slots 1 less than for the least of them. */
  lemma AdoptedAgentBidsWorth(id: AgentId, p: Participant, a: RoundAnnouncement, now: real, benefit: TaskId -> real)
    requires Adopts(p, a) && !AnnouncementRaises(id, p, a) && id in a.participants
    ensures var r := RoundOf(OnAnnouncement(id, p, a, now, benefit));
            && r.agent.Some? && var row := r.agent.value.row;
            && (forall t | t in a.taskIds && t !in Slots(a) :: row.benefit(t) == Worth(p, benefit, t))
            && (forall t | t in Slots(a) :: IsOneBelow(Row(a.taskIds, u => Worth(p, benefit, u)), row.benefit(t)))
  {
    var q := OpenRound(p, a, now);
    assert RoundOf(BidInRound(q, a, benefit)).agent == Some(NewAgent(p.tasks, a, benefit));
    var row := RealRow(p.tasks, a.taskIds, benefit);
    assert a.taskIds[0] in row.order;
    FloorIsOneBelow(row);
    RowIsWorth(p, a, benefit);
  }

  lemma GossipKeepsHosting(id: AgentId, p: Participant, roundId: int, inner: PriceTableMessage)
    requires Hosts(id, RoundOf(p))
    ensures Hosts(id, RoundOf(OnGossip(id, p, roundId, inner)))
  {
    if p.announcement.None? || roundId != p.announcement.value.roundId {
    } else if p.agent.Some? {
      var h := p.agent.value;
      assert RoundOf(OnGossip(id, p, roundId, inner)) == RoundOf(p).(agent := Some(h.(st := Handle(id, h.st, inner))));
      TickedHosting(id, RoundOf(p), Handle(id, h.st, inner));
    } else if p.relay.Some? {
      RelayKeepsHosting(id, p, inner.entries);
    }
  }

  lemma RelayKeepsHosting(id: AgentId, p: Participant, entries: Table)
    requires Hosts(id, RoundOf(p)) && p.relay.Some?
    ensures Hosts(id, RoundOf(RelayPrices(p, entries)))
  {
  }

  lemma HearingKeepsHosting(s: Settings, p: Participant, m: Message, now: real, benefit: TaskId -> real)
    requires Hosts(s.id, RoundOf(p)) && (m.Announce? ==> !AnnouncementRaises(s.id, p, m.announcement))
    ensures Hosts(s.id, RoundOf(HandleMessage(s, p, m, now, benefit)))
  {
    match m
    case Announce(a) =>
      if Adopts(p, a) {
        AdoptionStartsAfresh(s.id, p, a, now, benefit);
      }
    case RoundGossip(roundId, inner) => GossipKeepsHosting(s.id, p, roundId, inner);
    case _ => OtherTalkKeepsRound(s, p, m, now, benefit);
  }

  lemma TickedHosting(id: AgentId, r: RoundPart, st: AgentState)
    requires Hosts(id, r) && r.agent.Some? && st.table.Keys == r.agent.value.st.table.Keys
    ensures Hosts(id, r.(agent := Some(r.agent.value.(st := st)))) && Hosts(id, r.(agent := None))
  {
  }

  lemma SettleEndsHosting(s: Settings, p: Participant, won: Option<TaskId>, now: real)
    ensures RoundOf(Settle(s, p, won, now).next) == RoundOf(p).(agent := None)
  {
  }

  lemma TickRoundKeepsHosting(s: Settings, p: Participant, now: real)
    requires Workable(p) && Hosts(s.id, RoundOf(p))
    ensures Hosts(s.id, RoundOf(TickRound(s, p, now).next))
  {
    if p.agent.Some? {
      var h := p.agent.value;
      var st := TickState(s.id, h.row, h.config, h.st);
      var q := p.(agent := Some(h.(st := st)));
      BidLeavesSlack(s.id, h.row, h.config, h.st);
      assert RoundOf(q) == RoundOf(p).(agent := Some(h.(st := st)));
      TickedHosting(s.id, RoundOf(p), st);
      SettleEndsHosting(s, q, st.assignment, now);
    }
  }

  lemma BeatKeepsHosting(s: Settings, p: Participant, now: real)
    ensures RoundOf(TickHeartbeat(s, p, now).next) == RoundOf(p)
  {
  }

  lemma OwnPartKeepsHosting(s: Settings, p: Participant, now: real)
    requires Workable(p) && Hosts(s.id, RoundOf(p))
    ensures Hosts(s.id, RoundOf(TickOwn(s, p, now).next))
  {
    var q := Refresh(s, p, now);
    RefreshKeepsWorkable(s, p, now);
    RefreshKeepsRound(s, p, now);
    TickRoundKeepsHosting(s, q, now);
    BeatKeepsHosting(s, TickRound(s, q, now).next, now);
  }

  lemma TurnKeepsHosting(s: Settings, p: Participant, now: real, benefit: TaskId -> real)
    requires !LookingRaises(s, p, now) && Hosts(s.id, RoundOf(p))
    ensures Hosts(s.id, RoundOf(TickCoordinator(s, p, now, benefit).next))
  {
    if Frames(s, p, now) {
      FramingIsBiddable(s, p, now);
      var a := Framing(s, p, now);
      if Adopts(p, a) {
        AdoptionStartsAfresh(s.id, p, a, now, benefit);
      }
    }
  }

  /** Nothing but an announcement that raises makes a robot host the wrong agent. */
  lemma ActKeepsHosting(s: Settings, p: Participant, act: Act)
    requires Workable(p) && Hosts(s.id, RoundOf(p))
    requires act.Hears? && act.message.Announce? ==> !AnnouncementRaises(s.id, p, act.message.announcement)
    ensures Hosts(s.id, RoundOf(After(s, p, act)))
  {
    match act
    case Hears(m, now, benefit) => HearingKeepsHosting(s, p, m, now, benefit);
    case Ticks(now, benefit) => TickKeepsHosting(s, p, now, benefit);
    case Finishes(t, now) => FinishKeepsHosting(s, p, t, now);
  }

  lemma TickKeepsHosting(s: Settings, p: Participant, now: real, benefit: TaskId -> real)
    requires Workable(p) && Hosts(s.id, RoundOf(p))
    ensures Hosts(s.id, RoundOf(After(s, p, Ticks(now, benefit))))
  {
    OwnPartKeepsHosting(s, p, now);
    if !TickRaises(s, p, now) {
      TurnKeepsHosting(s, TickOwn(s, p, now).next, now, benefit);
    }
  }

  lemma FinishKeepsHosting(s: Settings, p: Participant, t: TaskId, now: real)
    ensures RoundOf(TaskFinished(s, p, t, now).next) == RoundOf(p)
  {
  }

  // ------------------------------------------------------ since when a round is held

  /** The round held is open since it was adopted. */
  ghost predicate OpensAt(r: RoundPart, r': RoundPart, now: real) {
    r'.roundOpenedAt == if r'.announcement != r.announcement then now else r.roundOpenedAt
  }

  lemma AdoptionOpens(id: AgentId, p: Participant, a: RoundAnnouncement, now: real, benefit: TaskId -> real)
    ensures OpensAt(RoundOf(p), RoundOf(OnAnnouncement(id, p, a, now, benefit)), now)
  {
    if Adopts(p, a) {
      PrecedenceIsOrder(a, a, a);
      var q := OpenRound(p, a, now);
      assert q.announcement == Some(a) && q.roundOpenedAt == now;
      if !AnnouncementRaises(id, p, a) {
        AdoptionStartsAfresh(id, p, a, now, benefit);
      }
    }
  }

  lemma OwnPartOpensNothing(s: Settings, p: Participant, now: real)
    requires Workable(p)
    ensures TickOwn(s, p, now).next.announcement == p.announcement
    ensures TickOwn(s, p, now).next.roundOpenedAt == p.roundOpenedAt
  {
    OwnPartKeepsRound(s, p, now);
  }

  lemma ActOpens(s: Settings, p: Participant, act: Act)
    requires Workable(p)
    ensures OpensAt(RoundOf(p), RoundOf(After(s, p, act)), act.now)
  {
    match act
    case Hears(m, now, benefit) =>
      if m.Announce? {
        AdoptionOpens(s.id, p, m.announcement, now, benefit);
      } else {
        HearingKeepsRound(s, p, m, now, benefit);
      }
    case Ticks(now, benefit) =>
      var own := TickOwn(s, p, now).next;
      OwnPartOpensNothing(s, p, now);
      if !TickRaises(s, p, now) {
        TurnOpens(s, own, now, benefit);
      }
    case Finishes(t, now) => FinishKeepsHosting(s, p, t, now);
  }

  lemma TurnOpens(s: Settings, p: Participant, now: real, benefit: TaskId -> real)
    requires !LookingRaises(s, p, now)
    ensures OpensAt(RoundOf(p), RoundOf(TickCoordinator(s, p, now, benefit).next), now)
  {
    AdoptionOpens(s.id, p, Framing(s, p, now), now, benefit);
  }

  ghost function HeldAfter(s: Settings, acts: seq<Act>): nat -> Option<RoundAnnouncement> {
    (k: nat) => if k <= |acts| then Lived(s, Start(s), acts[..k]).announcement else None
  }

  ghost function OpenedAfter(s: Settings, acts: seq<Act>): nat -> real {
    (k: nat) => if k <= |acts| then Lived(s, Start(s), acts[..k]).roundOpenedAt else 0.0
  }

  /** `since` takes on the time of a step in which `held` changes, and stays otherwise. */
  ghost predicate Follows<T(!new)>(held: nat -> T, since: nat -> real, i: nat, now: real) {
    since(i + 1) == if held(i + 1) != held(i) then now else since(i)
  }

  /** `held` changed last in step k. */
  ghost predicate SameSince<T(!new)>(held: nat -> T, k: nat, n: nat) {
    k < n && held(k) != held(n) && forall j: nat | k < j <= n :: held(j) == held(n)
  }

  lemma {:induction false} LastChange<T(!new)>(held: nat -> T, since: nat -> real, times: seq<real>, n: nat)
    returns (k: nat)
    requires n <= |times| && held(0) != held(n) && forall i: nat | i < n :: Follows(held, since, i, times[i])
    ensures SameSince(held, k, n) && since(n) == times[k]
  {
    assert n > 0 && Follows(held, since, n - 1, times[n - 1]);
    if held(n) != held(n - 1) {
      k := n - 1;
    } else {
      k := LastChange(held, since, times, n - 1);
    }
  }

  lemma OneActFollows(s: Settings, acts: seq<Act>, i: nat)
    requires i < |acts|
    ensures Follows(HeldAfter(s, acts), OpenedAfter(s, acts), i, acts[i].now)
  {
    assert acts[..i + 1][..i] == acts[..i];
    ActOpens(s, Lived(s, Start(s), acts[..i]), acts[i]);
  }

  /** The time that the timeout of a round counts from is that of its adoption. */
  lemma OpenSinceAdoption(s: Settings, acts: seq<Act>) returns (k: nat)
    requires Lived(s, Start(s), acts).announcement.Some?
    ensures SameSince(HeldAfter(s, acts), k, |acts|) && Lived(s, Start(s), acts).roundOpenedAt == acts[k].now
  {
    var times := seq(|acts|, i requires 0 <= i < |acts| => acts[i].now);
    forall i: nat | i < |acts| ensures Follows(HeldAfter(s, acts), OpenedAfter(s, acts), i, times[i]) {
      OneActFollows(s, acts, i);
    }
    assert acts[..|acts|] == acts;
    k := LastChange(HeldAfter(s, acts), OpenedAfter(s, acts), times, |acts|);
  }
}
