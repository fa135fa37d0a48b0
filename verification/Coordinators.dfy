/**
 Who frames rounds, and what is in them: of all robots that have the same view
 the one with the least id, once the round before is over, over the tasks that
 are available and the robots that are idle.
 */
module Coordinators {
  import opened Types
  import opened IdOrder
  import opened Messages
  import opened Heartbeats
  import opened Participation
  import opened Coordination
  import opened RobotLives
  import opened Knowledge

  // ------------------------------------------------------ whose turn it is

  /** No heartbeat of a lower id was received within the timeout. */
  ghost predicate NobodyLower(acts: seq<Act>, id: AgentId, now: real, timeout: real) {
    forall r | r < id :: !HeardWithin(acts, r, now, timeout)
  }

  /** It is a robot's turn exactly when it has heard no heartbeat within the timeout from one of a lower id. */
  lemma TurnIsTheLeasts(s: Settings, acts: seq<Act>, now: real)
    ensures IsCoordinator(s, AtTurn(s, acts, now), now) <==> NobodyLower(acts, s.id, now, s.timeout)
  {
    var own := AtTurn(s, acts, now);
    forall r | r != s.id ensures r in Alive(own.seen, s.timeout, now) <==> HeardWithin(acts, r, now, s.timeout) {
      AliveIsHeard(s, acts, now, r);
    }
  }

  /** The robots in a robot's view: itself, and those it has heard from within the timeout. */
  ghost function View(s: Settings, acts: seq<Act>, now: real): iset<AgentId> {
    iset r | r == s.id || HeardWithin(acts, r, now, s.timeout)
  }

  /** `id` is the least of these. */
  ghost predicate LeastIn(id: AgentId, view: iset<AgentId>) {
    id in view && forall r | r in view :: id <= r
  }

  lemma LeastByHearing(s: Settings, acts: seq<Act>, now: real)
    ensures NobodyLower(acts, s.id, now, s.timeout) <==> LeastIn(s.id, View(s, acts, now))
  {
    var view := View(s, acts, now);
    forall r ensures r in view <==> r == s.id || HeardWithin(acts, r, now, s.timeout) {
    }
    if LeastIn(s.id, view) {
      forall r | r < s.id ensures !HeardWithin(acts, r, now, s.timeout) {
        assert r !in view;
      }
    }
  }

  /** Of all robots with the same view exactly one has the turn: the one whose id is least in it. */
  lemma SameViewOneTurn(s: Settings, acts: seq<Act>, s': Settings, acts': seq<Act>, now: real, view: iset<AgentId>)
    requires View(s, acts, now) == view == View(s', acts', now)
    ensures IsCoordinator(s, AtTurn(s, acts, now), now) <==> LeastIn(s.id, view)
    ensures IsCoordinator(s, AtTurn(s, acts, now), now) && IsCoordinator(s', AtTurn(s', acts', now), now)
            ==> s.id == s'.id
  {
    TurnIsTheLeasts(s, acts, now);
    TurnIsTheLeasts(s', acts', now);
    LeastByHearing(s, acts, now);
    LeastByHearing(s', acts', now);
  }

  // ------------------------------------------------------ the round held and the rounds seen

  /** No round is held that was not seen. */
  ghost predicate RoundSeen(p: Participant) {
    p.announcement.Some? ==> p.announcement.value.roundId <= p.maxRoundSeen
  }

  lemma AdoptKeepsRoundSeen(id: AgentId, p: Participant, a: RoundAnnouncement, now: real, benefit: TaskId -> real)
    requires RoundSeen(p)
    ensures RoundSeen(OnAnnouncement(id, p, a, now, benefit))
  {
    if Adopts(p, a) && !AnnouncementRaises(id, p, a) {
      var q := OpenRound(p, a, now);
      assert q.announcement == Some(a) && a.roundId <= q.maxRoundSeen;
      if id in a.participants {
        assert BidInRound(q, a, benefit).maxRoundSeen == q.maxRoundSeen;
      } else {
        assert RelayRound(q, a).maxRoundSeen == q.maxRoundSeen;
      }
    }
  }

  /** The round fields are as they were. */
  ghost predicate SameRound(p: Participant, q: Participant) {
    q.announcement == p.announcement && q.maxRoundSeen == p.maxRoundSeen && q.roundOpenedAt == p.roundOpenedAt
  }

  lemma HearingKeepsRound(s: Settings, p: Participant, m: Message, now: real, benefit: TaskId -> real)
    requires !m.Announce?
    ensures SameRound(p, HandleMessage(s, p, m, now, benefit))
  {
    match m
    case RoundGossip(roundId, inner) => GossipKeepsRound(s.id, p, roundId, inner);
    case Heartbeat(r, stamp, idle) =>
    case LeaseRenewal(t, holder, stamp) =>
    case TaskCompleted(t, completer, stamp) =>
    case TaskInjected(task, stamp) =>
  }

  lemma GossipKeepsRound(id: AgentId, p: Participant, roundId: int, inner: PriceTableMessage)
    ensures SameRound(p, OnGossip(id, p, roundId, inner))
  {
    if p.announcement.None? || roundId != p.announcement.value.roundId {
    } else if p.agent.Some? {
    } else if p.relay.Some? {
      assert SameRound(p, RelayPrices(p, inner.entries));
    }
  }

  lemma TickRoundKeepsRound(s: Settings, p: Participant, now: real)
    requires Workable(p)
    ensures SameRound(p, TickRound(s, p, now).next) && OnlyRepeats(TickRound(s, p, now).out, p.announcement)
  {
  }

  lemma BeatKeepsRound(s: Settings, p: Participant, now: real)
    ensures SameRound(p, TickHeartbeat(s, p, now).next) && OnlyRepeats(TickHeartbeat(s, p, now).out, p.announcement)
  {
  }

  /** Before the coordinator's part a tick keeps the round held, and repeats no announcement but that one. */
  lemma OwnPartKeepsRound(s: Settings, p: Participant, now: real)
    requires Workable(p)
    ensures SameRound(p, TickOwn(s, p, now).next) && OnlyRepeats(TickOwn(s, p, now).out, p.announcement)
  {
    var q := Refresh(s, p, now);
    RefreshKeepsWorkable(s, p, now);
    assert SameRound(p, q);
    TickRoundKeepsRound(s, q, now);
    BeatKeepsRound(s, TickRound(s, q, now).next, now);
  }

  lemma ActKeepsRoundSeen(s: Settings, p: Participant, act: Act)
    requires Workable(p) && RoundSeen(p)
    ensures RoundSeen(After(s, p, act))
  {
    match act
    case Hears(m, now, benefit) => HearingKeepsRoundSeen(s, p, m, now, benefit);
    case Ticks(now, benefit) => TickKeepsRoundSeen(s, p, now, benefit);
    case Finishes(t, now) => FinishKeepsRound(s, p, t, now);
  }

  lemma HearingKeepsRoundSeen(s: Settings, p: Participant, m: Message, now: real, benefit: TaskId -> real)
    requires RoundSeen(p)
    ensures RoundSeen(HandleMessage(s, p, m, now, benefit))
  {
    if m.Announce? {
      AdoptKeepsRoundSeen(s.id, p, m.announcement, now, benefit);
    } else {
      HearingKeepsRound(s, p, m, now, benefit);
    }
  }

  lemma TickKeepsRoundSeen(s: Settings, p: Participant, now: real, benefit: TaskId -> real)
    requires Workable(p) && RoundSeen(p)
    ensures RoundSeen(After(s, p, Ticks(now, benefit)))
  {
    var own := TickOwn(s, p, now).next;
    OwnPartKeepsRound(s, p, now);
    if !TickRaises(s, p, now) {
      FramingKeepsRoundSeen(s, own, now, benefit);
    }
  }

  lemma FramingKeepsRoundSeen(s: Settings, p: Participant, now: real, benefit: TaskId -> real)
    requires RoundSeen(p) && !LookingRaises(s, p, now)
    ensures RoundSeen(TickCoordinator(s, p, now, benefit).next)
  {
    AdoptKeepsRoundSeen(s.id, p, Framing(s, p, now), now, benefit);
  }

  lemma FinishKeepsRound(s: Settings, p: Participant, t: TaskId, now: real)
    ensures SameRound(p, TaskFinished(s, p, t, now).next)
  {
  }

  lemma {:induction false} LifeKeepsRoundSeen(s: Settings, acts: seq<Act>)
    ensures RoundSeen(Lived(s, Start(s), acts))
    decreases |acts|
  {
    if acts != [] {
      LifeKeepsRoundSeen(s, acts[..|acts| - 1]);
      ActKeepsRoundSeen(s, Lived(s, Start(s), acts[..|acts| - 1]), acts[|acts| - 1]);
    }
  }

  // ------------------------------------------------------ framing

  /** Something newer than all rounds seen is announced. */
  ghost predicate AnnouncesNew(out: set<Message>, seen: int) {
    exists a :: Announce(a) in out && a.roundId > seen
  }

  /**
   The round held is over: every task is leased or complete, or the round timed out, and
   the robot does not bid in it.
   */
  ghost predicate RoundIsOver(s: Settings, p: Participant, now: real) {
    p.announcement.Some? ==>
      && p.agent.None?
      && (now - p.roundOpenedAt > s.roundTimeout
          || forall t | t in p.announcement.value.taskIds :: t in p.completed || t in p.leases)
  }

  /** A tick announces a new round exactly if the coordinator's part frames one. */
  lemma AnnouncesIfFrames(s: Settings, p: Participant, now: real, benefit: TaskId -> real)
    requires Workable(p) && RoundSeen(p) && !TickRaises(s, p, now)
    ensures var own, out := TickOwn(s, p, now).next, Tick(s, p, now, benefit).out;
            && (AnnouncesNew(out, p.maxRoundSeen) <==> Frames(s, own, now))
            && forall a | Announce(a) in out && a.roundId > p.maxRoundSeen :: a == Framing(s, own, now)
  {
    var own := TickOwn(s, p, now);
    var framed := TickCoordinator(s, own.next, now, benefit);
    OwnPartKeepsRound(s, p, now);
    FramingIsAnnounced(s, own.next, now, benefit);
    RepeatsAreOld(own.out, framed.out, p.announcement, p.maxRoundSeen);
    OnlyFramingIsNew(own.out, framed.out, Frames(s, own.next, now), Framing(s, own.next, now), p.maxRoundSeen);
  }

  lemma OnlyFramingIsNew(first: set<Message>, last: set<Message>, frames: bool, framing: RoundAnnouncement, seen: int)
    requires last == (if frames then {Announce(framing)} else {}) && framing.roundId > seen
    requires forall a | Announce(a) in first + last && a.roundId > seen :: Announce(a) in last
    ensures AnnouncesNew(first + last, seen) <==> frames
    ensures forall a | Announce(a) in first + last && a.roundId > seen :: a == framing
  {
    assert frames ==> Announce(framing) in first + last;
  }

  lemma FramingIsAnnounced(s: Settings, p: Participant, now: real, benefit: TaskId -> real)
    requires !LookingRaises(s, p, now)
    ensures TickCoordinator(s, p, now, benefit).out == if Frames(s, p, now) then {Announce(Framing(s, p, now))} else {}
    ensures Framing(s, p, now).roundId == p.maxRoundSeen + 1
  {
  }

  lemma RepeatsAreOld(first: set<Message>, last: set<Message>, held: Option<RoundAnnouncement>, seen: int)
    requires OnlyRepeats(first, held) && (held.Some? ==> held.value.roundId <= seen)
    ensures forall a | Announce(a) in first + last && a.roundId > seen :: Announce(a) in last
  {
    forall a | Announce(a) in first ensures a.roundId <= seen {
      assert held == Some(a);
    }
  }

  /**
   A robot frames a round exactly if it has heard from no lower id within the
   timeout, the round it holds is over, and it knows a task that is available and
   a robot that is idle.
   */
  lemma FramersAreLeast(s: Settings, acts: seq<Act>, now: real, benefit: TaskId -> real)
    requires !TickRaises(s, Lived(s, Start(s), acts), now)
    ensures var p, own := Lived(s, Start(s), acts), AtTurn(s, acts, now);
            AnnouncesNew(Tick(s, p, now, benefit).out, p.maxRoundSeen)
            <==> NobodyLower(acts, s.id, now, s.timeout) && RoundIsOver(s, own, now)
                 && AvailableTasks(own) != {} && KnownIdle(s, own, now) != {}
  {
    var p := Lived(s, Start(s), acts);
    LifeKeepsRoundSeen(s, acts);
    AnnouncesIfFrames(s, p, now, benefit);
    TurnIsTheLeasts(s, acts, now);
  }

  // ------------------------------------------------------ what a round consists of

  /** The latest heartbeat received from `r` says that it is idle. */
  ghost predicate LastSaidIdle(id: AgentId, acts: seq<Act>, r: AgentId) {
    exists f :: IsLatestFlag(id, acts, r, f) && f.idle
  }

  lemma LatestFlagIsUnique(id: AgentId, acts: seq<Act>, r: AgentId, f: Flag, g: Flag)
    requires IsLatestFlag(id, acts, r, f) && IsLatestFlag(id, acts, r, g)
    ensures f == g
  {
    var j :| 0 <= j < |acts| && IsLatestAt(id, acts, r, f, j);
    var k :| 0 <= k < |acts| && IsLatestAt(id, acts, r, g, k);
  }

  lemma FlagsAtTurn(s: Settings, acts: seq<Act>, now: real, r: AgentId)
    ensures var flags := AtTurn(s, acts, now).idleFlags;
            r in flags && flags[r].idle <==> LastSaidIdle(s.id, acts, r)
  {
    var flags := AtTurn(s, acts, now).idleFlags;
    OwnPartNotes(s, Lived(s, Start(s), acts), now);
    LifeIsNoted(s, Start(s), acts);
    FlagsAreLatest(s.id, NotesOf(Start(s)), acts, r);
    if f :| IsLatestFlag(s.id, acts, r, f) && f.idle {
      var k :| 0 <= k < |acts| && IsLatestAt(s.id, acts, r, f, k);
      assert Says(s.id, acts[k], r, f);
      LatestFlagIsUnique(s.id, acts, r, f, flags[r]);
    }
  }

  /**
   Another robot counts as idle exactly if it was heard from within the timeout and
   last said so, the robot itself if it neither executes nor bids.
   */
  lemma IdleIsHeard(s: Settings, acts: seq<Act>, now: real, r: AgentId)
    ensures r in KnownIdle(s, AtTurn(s, acts, now), now)
            <==> if r == s.id then AtTurn(s, acts, now).executing.None? && AtTurn(s, acts, now).agent.None?
                 else HeardWithin(acts, r, now, s.timeout) && LastSaidIdle(s.id, acts, r)
  {
    FlagsAtTurn(s, acts, now, r);
    if r != s.id {
      AliveIsHeard(s, acts, now, r);
    } else {
      NoWordFromOneself(s.id, acts);
    }
  }

  lemma NoWordFromOneself(id: AgentId, acts: seq<Act>)
    ensures !LastSaidIdle(id, acts, id)
  {
    forall f, k | 0 <= k < |acts| ensures !IsLatestAt(id, acts, id, f, k) {
    }
  }

  /**
   A framing is about the available tasks and the idle robots, each once and in order,
   with slots for surplus robots.
   */
  lemma FramingNames(s: Settings, p: Participant, now: real)
    ensures var a := Framing(s, p, now);
            && Increasing(a.taskIds) && Increasing(a.participants)
            && (forall r :: r in a.participants <==> r in KnownIdle(s, p, now))
            && (forall t :: t in a.taskIds <==> IsOpen(p, t))
            && a.idleSlots == (if |a.participants| > |a.taskIds| then |a.participants| - |a.taskIds| else 0)
            && a.coordinator == s.id && a.roundId == p.maxRoundSeen + 1
            && a.epsilon == s.roundConfig.epsilon && a.quiescenceRounds == s.roundConfig.quiescenceRounds
  {
    SortedIsSorted(AvailableTasks(p));
    SortedIsSorted(KnownIdle(s, p, now));
    forall t ensures t in AvailableTasks(p) <==> IsOpen(p, t) {
    }
  }

  /** A known task that is not complete, but all its prerequisites are, and that nobody holds. */
  ghost predicate IsOpen(p: Participant, t: TaskId) {
    && t in p.tasks && t !in p.completed && t !in p.leases
    && forall u | u in p.tasks[t].prerequisites :: u in p.tasks && u in p.completed
  }
}
