/**
 The life of one robot as the sequence of what it hears, its ticks and the tasks
 its host finishes, and what it knows by then: who is alive, which tasks there
 are, which are complete. Knowledge depends on what was heard, not on how.
 */
module RobotLives {
  import opened Types
  import opened Dag
  import opened Engine
  import opened Messages
  import Leases
  import opened Heartbeats
  import opened Participation
  import opened Coordination

  datatype Act =
    | Hears(message: Message, now: real, benefit: TaskId -> real)
    | Ticks(now: real, benefit: TaskId -> real)
    | Finishes(task: TaskId, now: real)

  /**
   The robot after one act; its host pops what a tick dispatches and aborts. A tick that
   raises keeps its earlier parts.
   */
  ghost function After(s: Settings, p: Participant, act: Act): (q: Participant)
    requires Workable(p)
    ensures Workable(q)
  {
    match act
    case Hears(m, now, benefit) =>
      HandleKeepsWorkable(s, p, m, now, benefit);
      HandleMessage(s, p, m, now, benefit)
    case Ticks(now, benefit) =>
      TickKeepsWorkable(s, p, now, benefit);
      if TickRaises(s, p, now) then TickOwn(s, p, now).next else Popped(Tick(s, p, now, benefit).next)
    case Finishes(t, now) =>
      FinishKeepsWorkable(s, p, t, now);
      TaskFinished(s, p, t, now).next
  }

  lemma TickKeepsWorkable(s: Settings, p: Participant, now: real, benefit: TaskId -> real)
    requires Workable(p)
    ensures !TickRaises(s, p, now) ==> Workable(Popped(Tick(s, p, now, benefit).next))
  {
    if !TickRaises(s, p, now) {
      var own := TickOwn(s, p, now).next;
      AdoptKeepsWorkable(s.id, own, Framing(s, own, now), now, benefit);
    }
  }

  lemma FinishKeepsWorkable(s: Settings, p: Participant, t: TaskId, now: real)
    requires Workable(p)
    ensures Workable(TaskFinished(s, p, t, now).next)
  {
  }

  /** The robot after all of this. */
  ghost function Lived(s: Settings, p: Participant, acts: seq<Act>): (q: Participant)
    requires Workable(p)
    ensures Workable(q)
  {
    if acts == [] then p else After(s, Lived(s, p, acts[..|acts| - 1]), acts[|acts| - 1])
  }

  // ------------------------------------------------------ what a robot knows

  /** What rounds and leases have no influence on. */
  datatype Notes = Notes(position: Position, workload: real, tasks: Tasks, unsupported: set<TaskId>,
                         completed: map<TaskId, AgentId>, idleFlags: map<AgentId, Flag>, seen: Seen)

  function NotesOf(p: Participant): Notes {
    Notes(p.position, p.workload, p.tasks, p.unsupported, p.completed, p.idleFlags, p.seen)
  }

  lemma AdoptKeepsNotes(id: AgentId, p: Participant, a: RoundAnnouncement, now: real, benefit: TaskId -> real)
    ensures NotesOf(OnAnnouncement(id, p, a, now, benefit)) == NotesOf(p)
  {
    if !Adopts(p, a) {
    } else if AnnouncementRaises(id, p, a) {
    } else if id in a.participants {
      assert NotesOf(BidInRound(OpenRound(p, a, now), a, benefit)) == NotesOf(OpenRound(p, a, now)) == NotesOf(p);
    } else {
      assert NotesOf(RelayRound(OpenRound(p, a, now), a)) == NotesOf(OpenRound(p, a, now)) == NotesOf(p);
    }
  }

  lemma GossipKeepsNotes(id: AgentId, p: Participant, roundId: int, inner: PriceTableMessage)
    ensures NotesOf(OnGossip(id, p, roundId, inner)) == NotesOf(p)
  {
    if p.announcement.None? || roundId != p.announcement.value.roundId {
    } else if p.agent.Some? {
    } else if p.relay.Some? {
      assert NotesOf(RelayPrices(p, inner.entries)) == NotesOf(p);
    }
  }

  lemma SettleKeepsNotes(s: Settings, p: Participant, won: Option<TaskId>, now: real)
    ensures NotesOf(Settle(s, p, won, now).next) == NotesOf(p)
  {
    var q := p.(agent := None);
    assert NotesOf(q) == NotesOf(p);
    if won.Some? && won.value >= 0 && won.value !in p.completed {
      assert NotesOf(q.(leases := Leases.Granted(p.leases, s.leaseDuration, won.value, s.id, now), executing := won,
                        dispatches := p.dispatches + [won.value])) == NotesOf(q);
    }
  }

  lemma TickRoundKeepsNotes(s: Settings, p: Participant, now: real)
    requires Workable(p)
    ensures NotesOf(TickRound(s, p, now).next) == NotesOf(p)
  {
    if p.agent.Some? {
      var h := p.agent.value;
      var st := TickState(s.id, h.row, h.config, h.st);
      var q := p.(agent := Some(h.(st := st)));
      assert NotesOf(q) == NotesOf(p);
      SettleKeepsNotes(s, q, st.assignment, now);
    }
  }

  lemma BeatKeepsNotes(s: Settings, p: Participant, now: real)
    ensures NotesOf(TickHeartbeat(s, p, now).next) == NotesOf(p)
  {
  }

  lemma OwnPartNotes(s: Settings, p: Participant, now: real)
    requires Workable(p)
    ensures NotesOf(TickOwn(s, p, now).next) == NotesOf(p).(seen := Recorded(p.seen, s.id, now))
  {
    var q := Refresh(s, p, now);
    RefreshKeepsWorkable(s, p, now);
    TickRoundKeepsNotes(s, q, now);
    BeatKeepsNotes(s, TickRound(s, q, now).next, now);
  }

  lemma TickNotes(s: Settings, p: Participant, now: real, benefit: TaskId -> real)
    requires Workable(p)
    ensures NotesOf(After(s, p, Ticks(now, benefit))) == NotesOf(p).(seen := Recorded(p.seen, s.id, now))
  {
    var own := TickOwn(s, p, now).next;
    OwnPartNotes(s, p, now);
    if !TickRaises(s, p, now) {
      AdoptKeepsNotes(s.id, own, Framing(s, own, now), now, benefit);
      assert NotesOf(TickCoordinator(s, own, now, benefit).next) == NotesOf(own);
    }
  }

  /** What one act adds to the notes. */
  ghost function Noted(id: AgentId, n: Notes, act: Act): Notes {
    match act
    case Hears(Heartbeat(r, stamp, idle), now, _) =>
      if r == id then n
      else n.(seen := Recorded(n.seen, r, now),
              idleFlags := if r !in n.idleFlags || stamp > n.idleFlags[r].stamp
                           then n.idleFlags[r := Flag(stamp, idle)] else n.idleFlags)
    case Hears(TaskCompleted(t, completer, _), _, _) =>
      n.(completed := if t in n.completed then n.completed else n.completed[t := completer])
    case Hears(TaskInjected(task, _), _, _) =>
      if task.Collaborative() then n.(unsupported := n.unsupported + {task.id})
      else n.(tasks := n.tasks[task.id := task])
    case Hears(_, _, _) => n
    case Ticks(now, _) => n.(seen := Recorded(n.seen, id, now))
    case Finishes(t, _) =>
      var done := n.(completed := n.completed[t := id]);
      if t in n.tasks then
        done.(workload := n.workload + n.tasks[t].duration,
              position := if n.tasks[t].position != [] then n.tasks[t].position else n.position)
      else done
  }

  lemma HeardIsNoted(s: Settings, p: Participant, m: Message, now: real, benefit: TaskId -> real)
    requires Workable(p)
    ensures NotesOf(HandleMessage(s, p, m, now, benefit)) == Noted(s.id, NotesOf(p), Hears(m, now, benefit))
  {
    match m
    case Announce(a) => AdoptKeepsNotes(s.id, p, a, now, benefit);
    case RoundGossip(roundId, inner) => GossipKeepsNotes(s.id, p, roundId, inner);
    case Heartbeat(r, stamp, idle) => HeartbeatIsNoted(s, p, r, stamp, idle, now, benefit);
    case LeaseRenewal(t, holder, stamp) => RenewalKeepsNotes(s, p, t, holder, now);
    case TaskCompleted(t, completer, stamp) => CompletionIsNoted(p, t, completer);
    case TaskInjected(task, stamp) => TaskIsNoted(p, task);
  }

  lemma HeartbeatIsNoted(s: Settings, p: Participant, r: AgentId, stamp: real, idle: bool, now: real,
                         benefit: TaskId -> real)
    ensures NotesOf(OnHeartbeat(s.id, p, r, stamp, idle, now))
            == Noted(s.id, NotesOf(p), Hears(Heartbeat(r, stamp, idle), now, benefit))
  {
  }

  lemma RenewalKeepsNotes(s: Settings, p: Participant, t: TaskId, holder: AgentId, now: real)
    ensures NotesOf(OnLeaseRenewal(s, p, t, holder, now)) == NotesOf(p)
  {
  }

  lemma CompletionIsNoted(p: Participant, t: TaskId, completer: AgentId)
    ensures NotesOf(OnCompleted(p, t, completer))
            == NotesOf(p).(completed := if t in p.completed then p.completed else p.completed[t := completer])
  {
  }

  lemma TaskIsNoted(p: Participant, task: Task)
    ensures NotesOf(AddTask(p, task))
            == if task.Collaborative() then NotesOf(p).(unsupported := p.unsupported + {task.id})
               else NotesOf(p).(tasks := p.tasks[task.id := task])
  {
  }

  lemma FinishedIsNoted(s: Settings, p: Participant, t: TaskId, now: real)
    ensures NotesOf(TaskFinished(s, p, t, now).next) == Noted(s.id, NotesOf(p), Finishes(t, now))
  {
    var done := Done(s, p, t);
    assert NotesOf(done) == NotesOf(p).(completed := p.completed[t := s.id]);
    if t in p.tasks {
      assert NotesOf(WorkedOn(done, p.tasks[t]))
          == NotesOf(done).(workload := p.workload + p.tasks[t].duration,
                            position := if p.tasks[t].position != [] then p.tasks[t].position else p.position);
    }
  }

  lemma ActIsNoted(s: Settings, p: Participant, act: Act)
    requires Workable(p)
    ensures NotesOf(After(s, p, act)) == Noted(s.id, NotesOf(p), act)
  {
    match act
    case Hears(m, now, benefit) => HeardIsNoted(s, p, m, now, benefit);
    case Ticks(now, benefit) => TickNotes(s, p, now, benefit);
    case Finishes(t, now) => FinishedIsNoted(s, p, t, now);
  }

  ghost function NotesAfter(id: AgentId, n: Notes, acts: seq<Act>): Notes {
    if acts == [] then n else Noted(id, NotesAfter(id, n, acts[..|acts| - 1]), acts[|acts| - 1])
  }

  lemma {:induction false} LifeIsNoted(s: Settings, p: Participant, acts: seq<Act>)
    requires Workable(p)
    ensures NotesOf(Lived(s, p, acts)) == NotesAfter(s.id, NotesOf(p), acts)
    decreases |acts|
  {
    if acts != [] {
      LifeIsNoted(s, p, acts[..|acts| - 1]);
      ActIsNoted(s, Lived(s, p, acts[..|acts| - 1]), acts[|acts| - 1]);
    }
  }
}
