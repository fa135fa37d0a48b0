/**
 Leases and work: a robot works on nothing that somebody else holds, takes on
 what it won and nothing that is done, and heartbeats carry all it knows to be
 complete.
 */
module Leaseholding {
  import opened Types
  import opened Engine
  import opened Messages
  import opened Leases
  import opened Participation
  import opened RobotLives
  import opened Knowledge

  // ------------------------------------------------------ work in hand

  /** What a robot works on and owes its host, and the leases it knows. */
  datatype Work = Work(executing: Option<TaskId>, dispatches: seq<TaskId>, aborts: seq<TaskId>, leases: LeaseMap)

  function WorkOf(p: Participant): Work {
    Work(p.executing, p.dispatches, p.aborts, p.leases)
  }

  /** The work in hand, if any, is held by nobody else. */
  ghost predicate Uncontested(id: AgentId, w: Work) {
    w.executing.Some? ==> Holder(w.leases, w.executing.value) == None || Holder(w.leases, w.executing.value) == Some(id)
  }

  /** Somebody else holds an unexpired lease on the work in hand. */
  ghost predicate Lost(id: AgentId, w: Work, now: real) {
    && w.executing.Some? && w.executing.value in w.leases
    && w.leases[w.executing.value].holder != id && w.leases[w.executing.value].expiresAt > now
  }

  /** What the robot's auction gave it: its agent falls silent with a real task that is not complete. */
  ghost function Won(s: Settings, p: Participant): Option<TaskId>
    requires Workable(p)
  {
    if p.agent.None? then None
    else
      var h := p.agent.value;
      var st := TickState(s.id, h.row, h.config, h.st);
      if Broadcast(s.id, h.config, st).None? && st.assignment.Some? && st.assignment.value >= 0
         && st.assignment.value !in p.completed
      then st.assignment else None
  }

  lemma RefreshWork(s: Settings, p: Participant, now: real)
    ensures var w, w' := WorkOf(p), WorkOf(Refresh(s, p, now));
            && w'.leases == Swept(w.leases, now) && w'.dispatches == w.dispatches && Uncontested(s.id, w')
            && if Lost(s.id, w, now) then w'.executing == None && w'.aborts == w.aborts + [w.executing.value]
               else w'.executing == w.executing && w'.aborts == w.aborts
    ensures Refresh(s, p, now).agent == p.agent && Refresh(s, p, now).completed == p.completed
  {
  }

  lemma SettleWork(s: Settings, p: Participant, won: Option<TaskId>, now: real)
    ensures var w, w' := WorkOf(p), WorkOf(Settle(s, p, won, now).next);
            if won.Some? && won.value >= 0 && won.value !in p.completed then
              w' == Work(won, w.dispatches + [won.value], w.aborts,
                         w.leases[won.value := Lease(won.value, s.id, now + s.leaseDuration)])
            else w' == w
  {
  }

  lemma RoundWork(s: Settings, p: Participant, now: real)
    requires Workable(p)
    ensures var w, w' := WorkOf(p), WorkOf(TickRound(s, p, now).next);
            match Won(s, p)
            case Some(t) => w' == Work(Some(t), w.dispatches + [t], w.aborts,
                                       w.leases[t := Lease(t, s.id, now + s.leaseDuration)])
            case None => w' == w
  {
    if p.agent.Some? {
      var h := p.agent.value;
      var st := TickState(s.id, h.row, h.config, h.st);
      var q := p.(agent := Some(h.(st := st)));
      assert WorkOf(q) == WorkOf(p) && q.completed == p.completed;
      SettleWork(s, q, st.assignment, now);
    }
  }

  lemma BeatWork(s: Settings, p: Participant, now: real)
    ensures var w, w' := WorkOf(p), WorkOf(TickHeartbeat(s, p, now).next);
            && w'.(leases := w.leases) == w
            && forall t :: Holder(w'.leases, t) == Holder(w.leases, t)
  {
  }

  lemma TurnWork(s: Settings, p: Participant, now: real, benefit: TaskId -> real)
    requires !LookingRaises(s, p, now)
    ensures WorkOf(TickCoordinator(s, p, now, benefit).next) == WorkOf(p)
  {
    if Frames(s, p, now) {
      AdoptWork(s.id, p, Framing(s, p, now), now, benefit);
    }
  }

  lemma AdoptWork(id: AgentId, p: Participant, a: RoundAnnouncement, now: real, benefit: TaskId -> real)
    ensures WorkOf(OnAnnouncement(id, p, a, now, benefit)) == WorkOf(p)
  {
    if !Adopts(p, a) {
    } else if AnnouncementRaises(id, p, a) {
    } else if id in a.participants {
      assert WorkOf(BidInRound(OpenRound(p, a, now), a, benefit)) == WorkOf(OpenRound(p, a, now)) == WorkOf(p);
    } else {
      assert WorkOf(RelayRound(OpenRound(p, a, now), a)) == WorkOf(OpenRound(p, a, now)) == WorkOf(p);
    }
  }

  /**
   What a tick does to the work in hand: what is lost is aborted, what is won is taken on,
   and nothing is contested then.
   */
  lemma TickWork(s: Settings, p: Participant, now: real, benefit: TaskId -> real)
    requires Workable(p) && !TickRaises(s, p, now)
    ensures var w, w' := WorkOf(p), WorkOf(Tick(s, p, now, benefit).next);
            && Uncontested(s.id, w')
            && w'.aborts == (if Lost(s.id, w, now) then w.aborts + [w.executing.value] else w.aborts)
            && match Won(s, p)
               case Some(t) => w'.executing == Some(t) && w'.dispatches == w.dispatches + [t]
                               && Holder(w'.leases, t) == Some(s.id)
               case None => w'.dispatches == w.dispatches
                            && w'.executing == if Lost(s.id, w, now) then None else w.executing
  {
    var q := Refresh(s, p, now);
    RefreshKeepsWorkable(s, p, now);
    RefreshWork(s, p, now);
    RoundWork(s, q, now);
    var r := TickRound(s, q, now).next;
    BeatWork(s, r, now);
    TurnWork(s, TickOwn(s, p, now).next, now, benefit);
  }

  // ------------------------------------------------------ heartbeats

  ghost predicate IsDue(s: Settings, p: Participant, now: real) {
    p.lastHeartbeat.None? || now - p.lastHeartbeat.value >= s.heartbeatInterval
  }

  /**
   What the heartbeat of a tick carries: whether the robot is idle, its lease, and
   every completion it knows.
   */
  ghost predicate IsHeartbeatOf(id: AgentId, p: Participant, now: real, out: set<Message>) {
    && Heartbeat(id, now, p.executing.None? && p.agent.None?) in out
    && (p.executing.Some? ==> LeaseRenewal(p.executing.value, id, now) in out)
    && (forall t | t in p.completed :: TaskCompleted(t, p.completed[t], now) in out)
    && (p.announcement.Some? && p.announcement.value.coordinator == id ==> Announce(p.announcement.value) in out)
  }

  lemma BeatIsPaced(s: Settings, p: Participant, now: real)
    requires s.heartbeatInterval > 0.0
    ensures var r := TickHeartbeat(s, p, now);
            && r.next.lastHeartbeat.Some? && now - r.next.lastHeartbeat.value < s.heartbeatInterval
            && r.next.lastHeartbeat == (if IsDue(s, p, now) then Some(now) else p.lastHeartbeat)
            && (if IsDue(s, p, now) then IsHeartbeatOf(s.id, r.next, now, r.out) else r.out == {})
            && r.next.completed == p.completed && r.next.agent == p.agent
  {
  }

  lemma BeatsLater(s: Settings, p: Participant, now: real)
    requires Workable(p)
    ensures var q := TickRound(s, Refresh(s, p, now), now).next;
            q.lastHeartbeat == p.lastHeartbeat && q.completed == p.completed
    ensures Workable(Refresh(s, p, now))
    ensures forall m | m in TickRound(s, Refresh(s, p, now), now).out :: !m.Heartbeat?
  {
    RefreshKeepsWorkable(s, p, now);
    TickRoundKeepsNotes(s, Refresh(s, p, now), now);
    OwnPartNotes(s, p, now);
    RoundKeepsPace(s, Refresh(s, p, now), now);
  }

  lemma RoundKeepsPace(s: Settings, p: Participant, now: real)
    requires Workable(p)
    ensures TickRound(s, p, now).next.lastHeartbeat == p.lastHeartbeat
    ensures forall m | m in TickRound(s, p, now).out :: !m.Heartbeat?
  {
  }

  /** A heartbeat goes out with a tick exactly if none did within the interval, and then it says all it should. */
  lemma TicksKeepPace(s: Settings, p: Participant, now: real, benefit: TaskId -> real)
    requires Workable(p) && !TickRaises(s, p, now) && s.heartbeatInterval > 0.0
    ensures var own, out := TickOwn(s, p, now).next, Tick(s, p, now, benefit).out;
            && own.completed == p.completed
            && (IsDue(s, p, now) ==> IsHeartbeatOf(s.id, own, now, out))
            && ((exists stamp, idle :: Heartbeat(s.id, stamp, idle) in out) <==> IsDue(s, p, now))
            && own.lastHeartbeat.Some? && now - own.lastHeartbeat.value < s.heartbeatInterval
  {
    var q := TickRound(s, Refresh(s, p, now), now).next;
    BeatsLater(s, p, now);
    BeatIsPaced(s, q, now);
    var own := TickOwn(s, p, now);
    assert own.next == TickHeartbeat(s, q, now).next;
  }

  /**
   Anti-entropy: whoever receives all that a robot sends with a heartbeat, in any
   order and among anything else, knows every completion the robot knew.
   */
  lemma CompletionsSpread(s: Settings, p: Participant, now: real, benefit: TaskId -> real, s': Settings,
                          p': Participant, acts: seq<Act>, t: TaskId)
    requires Workable(p) && !TickRaises(s, p, now) && s.heartbeatInterval > 0.0 && IsDue(s, p, now)
    requires Workable(p') && t in p.completed
    requires forall m | m in Tick(s, p, now, benefit).out ::
               exists k :: 0 <= k < |acts| && acts[k].Hears? && acts[k].message == m
    ensures t in Lived(s', p', acts).completed
  {
    TicksKeepPace(s, p, now, benefit);
    var m := TaskCompleted(t, p.completed[t], now);
    assert m in Tick(s, p, now, benefit).out;
    var k :| 0 <= k < |acts| && acts[k].Hears? && acts[k].message == m;
    assert Completes(acts[k], t);
    CompletionsOnlyGrow(s', p', acts, t);
  }

  // ------------------------------------------------------ claims

  /** The robot holds that `r` has the lease, or hears `r` claim it. */
  ghost predicate ClaimedBy(p: Participant, acts: seq<Act>, t: TaskId, r: AgentId) {
    || Holder(p.leases, t) == Some(r)
    || exists k :: 0 <= k < |acts| && Claims(acts[k], t, r)
  }

  ghost predicate Claims(act: Act, t: TaskId, r: AgentId) {
    act.Hears? && act.message.LeaseRenewal? && act.message.taskId == t && act.message.holder == r
  }

  lemma ClaimedMore(p: Participant, acts: seq<Act>, t: TaskId, r: AgentId)
    requires acts != []
    ensures ClaimedBy(p, acts, t, r) <==> ClaimedBy(p, acts[..|acts| - 1], t, r) || Claims(acts[|acts| - 1], t, r)
  {
    var init := acts[..|acts| - 1];
    if k :| 0 <= k < |init| && Claims(init[k], t, r) {
      assert Claims(acts[k], t, r);
    }
    if k :| 0 <= k < |acts| && Claims(acts[k], t, r) {
      assert k < |init| ==> Claims(init[k], t, r);
    }
  }

  /**
   What a message does to the lease of `t`: of the holder and a claimant the lower id has
   it, and a completion ends it.
   */
  lemma HeardLease(s: Settings, p: Participant, m: Message, now: real, benefit: TaskId -> real, t: TaskId)
    ensures var h, h' := Holder(p.leases, t), Holder(HandleMessage(s, p, m, now, benefit).leases, t);
            match m
            case LeaseRenewal(u, r, _) =>
              h' == if u != t then h else if h.Some? && h.value < r then h else Some(r)
            case TaskCompleted(u, _, _) => h' == if u == t then None else h
            case _ => h' == h
  {
    match m
    case Announce(a) => AdoptWork(s.id, p, a, now, benefit);
    case RoundGossip(roundId, inner) => GossipWork(s.id, p, roundId, inner);
    case Heartbeat(r, stamp, idle) =>
    case LeaseRenewal(u, r, stamp) => RenewalHolder(p.leases, s.leaseDuration, u, r, now, t);
    case TaskCompleted(u, completer, stamp) =>
    case TaskInjected(task, stamp) =>
  }

  lemma RenewalHolder(leases: LeaseMap, duration: real, u: TaskId, r: AgentId, now: real, t: TaskId)
    ensures var h := Holder(leases, t);
            Holder(Hear(leases, duration, u, r, now), t)
            == if u != t then h else if h.Some? && h.value < r then h else Some(r)
  {
  }

  lemma GossipWork(id: AgentId, p: Participant, roundId: int, inner: PriceTableMessage)
    ensures WorkOf(OnGossip(id, p, roundId, inner)) == WorkOf(p)
  {
    if p.announcement.None? || roundId != p.announcement.value.roundId {
    } else if p.agent.Some? {
    } else if p.relay.Some? {
      assert WorkOf(RelayPrices(p, inner.entries)) == WorkOf(p);
    }
  }

  /**
   Conflicting claims converge: as long as `t` is not reported complete, whatever
   the order and repetition of renewals, the lease is the lowest claimant's.
   */
  lemma {:induction false} LowestClaimHolds(s: Settings, p: Participant, acts: seq<Act>, t: TaskId)
    requires Workable(p) && forall k | 0 <= k < |acts| :: acts[k].Hears? && !Completes(acts[k], t)
    ensures match Holder(Lived(s, p, acts).leases, t)
            case None => forall r :: !ClaimedBy(p, acts, t, r)
            case Some(h) => ClaimedBy(p, acts, t, h) && forall r | ClaimedBy(p, acts, t, r) :: h <= r
    decreases |acts|
  {
    if acts != [] {
      var init, act := acts[..|acts| - 1], acts[|acts| - 1];
      LowestClaimHolds(s, p, init, t);
      HeardLease(s, Lived(s, p, init), act.message, act.now, act.benefit, t);
      assert !Completes(act, t);
      forall r ensures ClaimedBy(p, acts, t, r) <==> ClaimedBy(p, init, t, r) || Claims(act, t, r) {
        ClaimedMore(p, acts, t, r);
      }
      if act.message.LeaseRenewal? {
        assert Claims(act, act.message.taskId, act.message.holder);
      }
    }
  }
}
