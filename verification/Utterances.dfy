/**
 What a robot sends: every message of a tick, and only these, in terms of what the
 robot knows; and what it sends when a task is done.
 */
module Utterances {
  import opened Types
  import opened Engine
  import opened Messages
  import opened Participation
  import opened RobotLives
  import opened Coordinators
  import opened RoundHosting
  import opened Leaseholding

  /** The robot holds an announcement it framed itself. */
  ghost predicate FramedItself(id: AgentId, p: Participant, a: RoundAnnouncement) {
    p.announcement == Some(a) && a.coordinator == id
  }

  lemma BeatSays(s: Settings, p: Participant, now: real, m: Message)
    ensures m in TickHeartbeat(s, p, now).out
            <==> IsDue(s, p, now)
                 && match m
                    case Heartbeat(r, stamp, idle) =>
                      r == s.id && stamp == now && (idle <==> p.executing.None? && p.agent.None?)
                    case TaskCompleted(t, completer, stamp) =>
                      t in p.completed && completer == p.completed[t] && stamp == now
                    case LeaseRenewal(t, holder, stamp) => p.executing == Some(t) && holder == s.id && stamp == now
                    case Announce(a) => FramedItself(s.id, p, a)
                    case _ => false
  {
  }

  lemma SettleSays(s: Settings, p: Participant, won: Option<TaskId>, now: real)
    ensures Settle(s, p, won, now).out
            == if won.Some? && won.value >= 0 && won.value !in p.completed then {LeaseRenewal(won.value, s.id, now)}
               else {}
  {
  }

  lemma RoundSays(s: Settings, p: Participant, now: real, m: Message)
    requires Workable(p)
    ensures m in TickRound(s, p, now).out
            <==> match m
                 case RoundGossip(roundId, inner) =>
                   p.announcement.Some? && roundId == p.announcement.value.roundId && HasToSay(s, p) == Some(inner)
                 case LeaseRenewal(t, holder, stamp) => Won(s, p) == Some(t) && holder == s.id && stamp == now
                 case _ => false
  {
    if p.agent.Some? {
      var h := p.agent.value;
      var st := TickState(s.id, h.row, h.config, h.st);
      SettleSays(s, p.(agent := Some(h.(st := st))), st.assignment, now);
    }
  }

  /** What a robot says in a tick, in terms of how it stands before the tick and when it comes to its turn. */
  ghost predicate Says(s: Settings, p: Participant, own: Participant, now: real, m: Message)
    requires Workable(p)
  {
    match m
    case Heartbeat(r, stamp, idle) =>
      IsDue(s, p, now) && r == s.id && stamp == now && (idle <==> own.executing.None? && own.agent.None?)
    case TaskCompleted(t, completer, stamp) =>
      IsDue(s, p, now) && t in p.completed && completer == p.completed[t] && stamp == now
    case LeaseRenewal(t, holder, stamp) =>
      (Won(s, p) == Some(t) || (IsDue(s, p, now) && own.executing == Some(t))) && holder == s.id && stamp == now
    case Announce(a) =>
      (IsDue(s, p, now) && FramedItself(s.id, p, a)) || (Frames(s, own, now) && a == Framing(s, own, now))
    case RoundGossip(roundId, inner) =>
      p.announcement.Some? && roundId == p.announcement.value.roundId && HasToSay(s, p) == Some(inner)
    case TaskInjected(_, _) => false
  }

  /** Refreshing leaves alone what a robot has to say. */
  lemma RefreshSays(s: Settings, p: Participant, now: real)
    requires Workable(p)
    ensures var q := Refresh(s, p, now);
            && Workable(q) && Won(s, q) == Won(s, p) && HasToSay(s, q) == HasToSay(s, p)
            && q.announcement == p.announcement && q.completed == p.completed && q.lastHeartbeat == p.lastHeartbeat
  {
    RefreshKeepsWorkable(s, p, now);
    RefreshLeaves(s, p, now);
  }

  lemma RefreshLeaves(s: Settings, p: Participant, now: real)
    ensures var q := Refresh(s, p, now);
            && q.agent == p.agent && q.relay == p.relay && q.relayDirty == p.relayDirty
            && q.announcement == p.announcement && q.completed == p.completed && q.lastHeartbeat == p.lastHeartbeat
  {
  }

  lemma RoundLeaves(s: Settings, p: Participant, now: real)
    requires Workable(p)
    ensures var q := TickRound(s, p, now).next;
            q.announcement == p.announcement && q.completed == p.completed && q.lastHeartbeat == p.lastHeartbeat
  {
    var q := TickRound(s, p, now).next;
    TickRoundKeepsNotes(s, p, now);
    assert NotesOf(q).completed == NotesOf(p).completed;
    RoundKeepsPace(s, p, now);
    TickRoundKeepsRound(s, p, now);
  }

  lemma BeatLeaves(s: Settings, p: Participant, now: real)
    ensures var q := TickHeartbeat(s, p, now).next;
            q.executing == p.executing && q.agent == p.agent
  {
  }

  lemma OwnSays(s: Settings, p: Participant, now: real, m: Message)
    requires Workable(p)
    ensures m in TickOwn(s, p, now).out
            <==> Says(s, p, TickOwn(s, p, now).next, now, m)
                 && (m.Announce? ==> IsDue(s, p, now) && FramedItself(s.id, p, m.announcement))
  {
    var q := Refresh(s, p, now);
    RefreshSays(s, p, now);
    RoundSays(s, q, now, m);
    RoundLeaves(s, q, now);
    BeatSays(s, TickRound(s, q, now).next, now, m);
    BeatLeaves(s, TickRound(s, q, now).next, now);
  }

  lemma TurnSays(s: Settings, p: Participant, now: real, benefit: TaskId -> real, m: Message)
    requires !LookingRaises(s, p, now)
    ensures m in TickCoordinator(s, p, now, benefit).out <==> Frames(s, p, now) && m == Announce(Framing(s, p, now))
  {
  }

  /**
   Everything a tick sends and nothing else: once per interval the heartbeat with the
   robot's lease, its own framing and all completions it knows; what it has just won;
   what it has to say in the round; and the round it frames.
   */
  lemma TickSays(s: Settings, p: Participant, now: real, benefit: TaskId -> real, m: Message)
    requires Workable(p) && !TickRaises(s, p, now)
    ensures m in Tick(s, p, now, benefit).out <==> Says(s, p, TickOwn(s, p, now).next, now, m)
  {
    OwnSays(s, p, now, m);
    TurnSays(s, TickOwn(s, p, now).next, now, benefit, m);
  }

  /** A robot that knows the task it has finished says so, and nothing else. */
  lemma FinishSays(s: Settings, p: Participant, t: TaskId, now: real, m: Message)
    ensures m in TaskFinished(s, p, t, now).out <==> t in p.tasks && m == TaskCompleted(t, s.id, now)
  {
  }
}
