/**
 What a robot knows, in terms of what it heard: completions and tasks are sets
 that only grow, whatever the order and repetition of messages; liveness goes by
 the heartbeats received within the timeout.
 */
module Knowledge {
  import opened Types
  import opened Messages
  import opened Heartbeats
  import opened Participation
  import opened RobotLives

  lemma OneMoreAct(acts: seq<Act>)
    requires acts != []
    ensures acts == acts[..|acts| - 1] + [acts[|acts| - 1]]
  {
  }

  // ------------------------------------------------------ completions

  /** The robot hears that `t` is complete, or its own host finishes it. */
  ghost predicate Completes(act: Act, t: TaskId) {
    match act
    case Hears(TaskCompleted(u, _, _), _, _) => u == t
    case Finishes(u, _) => u == t
    case _ => false
  }

  ghost predicate LearnsOf(acts: seq<Act>, t: TaskId) {
    exists k :: 0 <= k < |acts| && Completes(acts[k], t)
  }

  lemma LearnsMore(acts: seq<Act>, t: TaskId)
    requires acts != []
    ensures LearnsOf(acts, t) <==> LearnsOf(acts[..|acts| - 1], t) || Completes(acts[|acts| - 1], t)
  {
    var init := acts[..|acts| - 1];
    if LearnsOf(init, t) {
      var k :| 0 <= k < |init| && Completes(init[k], t);
      assert acts[k] == init[k];
    }
    if LearnsOf(acts, t) {
      var k :| 0 <= k < |acts| && Completes(acts[k], t);
      assert k < |init| ==> init[k] == acts[k];
    }
  }

  lemma {:induction false} CompletedIsLearned(id: AgentId, n: Notes, acts: seq<Act>, t: TaskId)
    ensures t in NotesAfter(id, n, acts).completed <==> t in n.completed || LearnsOf(acts, t)
    decreases |acts|
  {
    if acts != [] {
      CompletedIsLearned(id, n, acts[..|acts| - 1], t);
      LearnsMore(acts, t);
    }
  }

  /**
   The grow-only set: a robot knows to be complete what it knew before and exactly
   the tasks whose completion it heard of or reported.
   */
  lemma CompletionsOnlyGrow(s: Settings, p: Participant, acts: seq<Act>, t: TaskId)
    requires Workable(p)
    ensures t in Lived(s, p, acts).completed <==> t in p.completed || LearnsOf(acts, t)
  {
    LifeIsNoted(s, p, acts);
    CompletedIsLearned(s.id, NotesOf(p), acts, t);
  }

  /** The first report of `t`, and from whom. */
  ghost predicate FirstReport(acts: seq<Act>, k: nat, t: TaskId, completer: AgentId)
    requires k < |acts|
  {
    && acts[k].Hears? && acts[k].message.TaskCompleted?
    && acts[k].message.taskId == t && acts[k].message.completer == completer
    && forall j | 0 <= j < k :: !Completes(acts[j], t)
  }

  ghost predicate ReportsItself(acts: seq<Act>, t: TaskId) {
    exists k :: 0 <= k < |acts| && acts[k].Finishes? && acts[k].task == t
  }

  /** Who is on record as the completer of `t`: the robot itself, whoever was on record, or the first heard of. */
  ghost predicate OnRecord(id: AgentId, before: map<TaskId, AgentId>, acts: seq<Act>, t: TaskId, completer: AgentId) {
    if ReportsItself(acts, t) then completer == id
    else if t in before then completer == before[t]
    else exists k: nat :: k < |acts| && FirstReport(acts, k, t, completer)
  }

  lemma RecordStays(id: AgentId, before: map<TaskId, AgentId>, init: seq<Act>, act: Act, t: TaskId, completer: AgentId)
    requires OnRecord(id, before, init, t, completer) && !(act.Finishes? && act.task == t)
    ensures OnRecord(id, before, init + [act], t, completer)
  {
    var acts := init + [act];
    if ReportsItself(init, t) {
      var k :| 0 <= k < |init| && init[k].Finishes? && init[k].task == t;
      assert acts[k] == init[k];
    } else {
      assert !ReportsItself(acts, t);
      if t !in before {
        var k: nat :| k < |init| && FirstReport(init, k, t, completer);
        assert FirstReport(acts, k, t, completer);
      }
    }
  }

  lemma {:induction false} CompleterIsOnRecord(id: AgentId, n: Notes, acts: seq<Act>, t: TaskId)
    requires t in NotesAfter(id, n, acts).completed
    ensures OnRecord(id, n.completed, acts, t, NotesAfter(id, n, acts).completed[t])
    decreases |acts|
  {
    if acts != [] {
      var init, act := acts[..|acts| - 1], acts[|acts| - 1];
      OneMoreAct(acts);
      CompletedIsLearned(id, n, init, t);
      if act.Finishes? && act.task == t {
        assert acts[|init|] == act;
      } else if t in NotesAfter(id, n, init).completed {
        CompleterIsOnRecord(id, n, init, t);
        RecordStays(id, n.completed, init, act, t, NotesAfter(id, n, init).completed[t]);
      } else {
        FirstReportOfAll(id, n.completed, init, act, t);
      }
    }
  }

  lemma FirstReportOfAll(id: AgentId, before: map<TaskId, AgentId>, init: seq<Act>, act: Act, t: TaskId)
    requires t !in before && !LearnsOf(init, t)
    requires act.Hears? && act.message.TaskCompleted? && act.message.taskId == t
    ensures OnRecord(id, before, init + [act], t, act.message.completer)
  {
    var acts := init + [act];
    assert FirstReport(acts, |init|, t, act.message.completer);
    forall k | 0 <= k < |acts| ensures !(acts[k].Finishes? && acts[k].task == t) {
      assert k < |init| ==> !Completes(init[k], t);
    }
  }

  lemma FirstCompleterStays(s: Settings, p: Participant, acts: seq<Act>, t: TaskId)
    requires Workable(p) && t in Lived(s, p, acts).completed
    ensures OnRecord(s.id, p.completed, acts, t, Lived(s, p, acts).completed[t])
  {
    LifeIsNoted(s, p, acts);
    CompleterIsOnRecord(s.id, NotesOf(p), acts, t);
  }

  // ------------------------------------------------------ tasks

  ghost predicate TellsOf(act: Act, task: Task) {
    act.Hears? && act.message.TaskInjected? && act.message.task == task
  }

  ghost predicate ToldOf(acts: seq<Act>, t: TaskId, collaborative: bool) {
    exists k, task :: 0 <= k < |acts| && TellsOf(acts[k], task) && task.id == t && task.Collaborative() == collaborative
  }

  lemma ToldMore(acts: seq<Act>, t: TaskId, collaborative: bool)
    requires acts != []
    ensures ToldOf(acts, t, collaborative)
            <==> ToldOf(acts[..|acts| - 1], t, collaborative)
                 || exists task ::
                      TellsOf(acts[|acts| - 1], task) && task.id == t && task.Collaborative() == collaborative
  {
    var init := acts[..|acts| - 1];
    if ToldOf(init, t, collaborative) {
      var k, task :| 0 <= k < |init| && TellsOf(init[k], task) && task.id == t && task.Collaborative() == collaborative;
      assert TellsOf(acts[k], task);
    }
    if ToldOf(acts, t, collaborative) {
      var k, task :| 0 <= k < |acts| && TellsOf(acts[k], task) && task.id == t && task.Collaborative() == collaborative;
      assert k < |init| ==> TellsOf(init[k], task);
    }
  }

  lemma {:induction false} TasksAreNoted(id: AgentId, n: Notes, acts: seq<Act>, t: TaskId)
    ensures t in NotesAfter(id, n, acts).tasks <==> t in n.tasks || ToldOf(acts, t, false)
    ensures t in NotesAfter(id, n, acts).unsupported <==> t in n.unsupported || ToldOf(acts, t, true)
    decreases |acts|
  {
    if acts != [] {
      TasksAreNoted(id, n, acts[..|acts| - 1], t);
      ToldMore(acts, t, false);
      ToldMore(acts, t, true);
      var act := acts[|acts| - 1];
      if act.Hears? && act.message.TaskInjected? {
        assert TellsOf(act, act.message.task);
      }
    }
  }

  /** A robot knows exactly the tasks it was told of; collaborative ones are set aside. */
  lemma TasksOnlyGrow(s: Settings, p: Participant, acts: seq<Act>, t: TaskId)
    requires Workable(p)
    ensures t in Lived(s, p, acts).tasks <==> t in p.tasks || ToldOf(acts, t, false)
    ensures t in Lived(s, p, acts).unsupported <==> t in p.unsupported || ToldOf(acts, t, true)
  {
    LifeIsNoted(s, p, acts);
    TasksAreNoted(s.id, NotesOf(p), acts, t);
  }

  // ------------------------------------------------------ who is alive

  /** A sign of life: the robot's own tick, or a heartbeat of another one when it is received. */
  ghost predicate IsBeat(id: AgentId, act: Act, b: (AgentId, real)) {
    match act
    case Ticks(now, _) => b == (id, now)
    case Hears(Heartbeat(r, _, _), now, _) => r != id && b == (r, now)
    case _ => false
  }

  ghost function Beats(id: AgentId, acts: seq<Act>): seq<(AgentId, real)> {
    if acts == [] then []
    else
      var rest, act := Beats(id, acts[..|acts| - 1]), acts[|acts| - 1];
      match act
      case Ticks(now, _) => rest + [(id, now)]
      case Hears(Heartbeat(r, _, _), now, _) => if r == id then rest else rest + [(r, now)]
      case _ => rest
  }

  lemma {:induction false} BeatsMembers(id: AgentId, acts: seq<Act>, b: (AgentId, real))
    ensures b in Beats(id, acts) <==> exists k :: 0 <= k < |acts| && IsBeat(id, acts[k], b)
    decreases |acts|
  {
    if acts != [] {
      var init, act := acts[..|acts| - 1], acts[|acts| - 1];
      BeatsMembers(id, init, b);
      assert b in Beats(id, acts) <==> b in Beats(id, init) || IsBeat(id, act, b);
      if k :| 0 <= k < |init| && IsBeat(id, init[k], b) {
        assert IsBeat(id, acts[k], b);
      }
      if k :| 0 <= k < |acts| && IsBeat(id, acts[k], b) {
        assert k < |init| ==> IsBeat(id, init[k], b);
      }
    }
  }

  lemma {:induction false} SeenIsRecorded(id: AgentId, n: Notes, acts: seq<Act>)
    requires n.seen == map[]
    ensures NotesAfter(id, n, acts).seen == RecordedAll(map[], Beats(id, acts))
    decreases |acts|
  {
    if acts != [] {
      var init := acts[..|acts| - 1];
      SeenIsRecorded(id, n, init);
      var beats := Beats(id, acts);
      if beats != Beats(id, init) {
        assert beats[..|beats| - 1] == Beats(id, init);
      }
    }
  }

  /** A heartbeat of `r` was received no longer than the timeout ago. */
  ghost predicate HeardWithin(acts: seq<Act>, r: AgentId, now: real, timeout: real) {
    exists k :: 0 <= k < |acts| && acts[k].Hears? && acts[k].message.Heartbeat? && acts[k].message.sender == r
                && now - acts[k].now <= timeout
  }

  /** The robot as it is when it comes to the coordinator's part of a tick. */
  ghost function AtTurn(s: Settings, acts: seq<Act>, now: real): (own: Participant)
    ensures Workable(own)
  {
    TickOwn(s, Lived(s, Start(s), acts), now).next
  }

  lemma SeenAtTurn(s: Settings, acts: seq<Act>, now: real)
    ensures AtTurn(s, acts, now).seen == RecordedAll(map[], Beats(s.id, acts) + [(s.id, now)])
  {
    var p := Lived(s, Start(s), acts);
    OwnPartNotes(s, p, now);
    LifeIsNoted(s, Start(s), acts);
    SeenIsRecorded(s.id, NotesOf(Start(s)), acts);
    var beats := Beats(s.id, acts) + [(s.id, now)];
    assert beats[..|beats| - 1] == Beats(s.id, acts);
  }

  /** Another robot counts as alive exactly when it was heard from within the timeout. */
  lemma AliveIsHeard(s: Settings, acts: seq<Act>, now: real, r: AgentId)
    requires r != s.id
    ensures IsAlive(AtTurn(s, acts, now).seen, s.timeout, r, now) <==> HeardWithin(acts, r, now, s.timeout)
  {
    var beats := Beats(s.id, acts) + [(s.id, now)];
    SeenAtTurn(s, acts, now);
    AliveMeansHeardRecently(beats, s.timeout, r, now);
    if HeardWithin(acts, r, now, s.timeout) {
      var k :| 0 <= k < |acts| && acts[k].Hears? && acts[k].message.Heartbeat? && acts[k].message.sender == r
               && now - acts[k].now <= s.timeout;
      assert IsBeat(s.id, acts[k], (r, acts[k].now));
      BeatsMembers(s.id, acts, (r, acts[k].now));
      assert (r, acts[k].now) in beats;
    }
    if b :| b in beats && b.0 == r && now - b.1 <= s.timeout {
      BeatsMembers(s.id, acts, b);
      var k :| 0 <= k < |acts| && IsBeat(s.id, acts[k], b);
    }
  }

  // ------------------------------------------------------ who is idle

  /** A heartbeat of another robot `r`, with this stamp and idle flag. */
  ghost predicate Says(id: AgentId, act: Act, r: AgentId, f: Flag) {
    r != id && act.Hears? && act.message == Heartbeat(r, f.stamp, f.idle)
  }

  /** Of all heartbeats of `r` received, `f` is that with the latest stamp, and of those the first received. */
  ghost predicate IsLatestFlag(id: AgentId, acts: seq<Act>, r: AgentId, f: Flag) {
    exists k :: 0 <= k < |acts| && IsLatestAt(id, acts, r, f, k)
  }

  ghost predicate IsLatestAt(id: AgentId, acts: seq<Act>, r: AgentId, f: Flag, k: nat)
    requires k < |acts|
  {
    && Says(id, acts[k], r, f)
    && (forall j, g | 0 <= j < |acts| && Says(id, acts[j], r, g) :: g.stamp <= f.stamp)
    && (forall j, g | 0 <= j < k && Says(id, acts[j], r, g) :: g.stamp < f.stamp)
  }

  lemma LatestFlagStays(id: AgentId, init: seq<Act>, act: Act, r: AgentId, f: Flag)
    requires IsLatestFlag(id, init, r, f) && forall g | Says(id, act, r, g) :: g.stamp <= f.stamp
    ensures IsLatestFlag(id, init + [act], r, f)
  {
    var k :| 0 <= k < |init| && IsLatestAt(id, init, r, f, k);
    assert IsLatestAt(id, init + [act], r, f, k);
  }

  lemma NewFlagIsLatest(id: AgentId, init: seq<Act>, act: Act, r: AgentId, f: Flag)
    requires Says(id, act, r, f) && forall j, g | 0 <= j < |init| && Says(id, init[j], r, g) :: g.stamp < f.stamp
    ensures IsLatestFlag(id, init + [act], r, f)
  {
    assert IsLatestAt(id, init + [act], r, f, |init|);
  }

  ghost predicate NeverHeard(id: AgentId, acts: seq<Act>, r: AgentId) {
    forall k, f | 0 <= k < |acts| :: !Says(id, acts[k], r, f)
  }

  /** Whatever the order of delivery, what is noted about `r` is its latest heartbeat. */
  lemma {:induction false} FlagsAreLatest(id: AgentId, n: Notes, acts: seq<Act>, r: AgentId)
    requires n.idleFlags == map[]
    ensures FlagIsLatest(id, acts, r, NotesAfter(id, n, acts).idleFlags)
    decreases |acts|
  {
    if acts != [] {
      var init, act := acts[..|acts| - 1], acts[|acts| - 1];
      FlagsAreLatest(id, n, init, r);
      OneMoreAct(acts);
      LatestFlagNext(id, NotesAfter(id, n, init), init, act, r);
    }
  }

  /** The flag of `r` is its latest, if it was heard from. */
  ghost predicate FlagIsLatest(id: AgentId, acts: seq<Act>, r: AgentId, flags: map<AgentId, Flag>) {
    if r in flags then IsLatestFlag(id, acts, r, flags[r]) else NeverHeard(id, acts, r)
  }

  lemma LatestFlagNext(id: AgentId, n: Notes, acts: seq<Act>, act: Act, r: AgentId)
    requires FlagIsLatest(id, acts, r, n.idleFlags)
    ensures FlagIsLatest(id, acts + [act], r, Noted(id, n, act).idleFlags)
  {
    if r != id && act.Hears? && act.message.Heartbeat? && act.message.sender == r {
      FlagHeard(id, n, acts, act, r, Flag(act.message.stamp, act.message.idle));
    } else if r in n.idleFlags {
      LatestFlagStays(id, acts, act, r, n.idleFlags[r]);
    } else {
      assert forall f :: !Says(id, act, r, f);
    }
  }

  lemma FlagHeard(id: AgentId, n: Notes, acts: seq<Act>, act: Act, r: AgentId, f: Flag)
    requires FlagIsLatest(id, acts, r, n.idleFlags) && Says(id, act, r, f)
    ensures FlagIsLatest(id, acts + [act], r, Noted(id, n, act).idleFlags)
  {
    if r in n.idleFlags && f.stamp <= n.idleFlags[r].stamp {
      LatestFlagStays(id, acts, act, r, n.idleFlags[r]);
    } else {
      EarlierFlags(id, acts, r, n.idleFlags, f);
      NewFlagIsLatest(id, acts, act, r, f);
    }
  }

  lemma EarlierFlags(id: AgentId, acts: seq<Act>, r: AgentId, flags: map<AgentId, Flag>, f: Flag)
    requires if r in flags then IsLatestFlag(id, acts, r, flags[r]) && flags[r].stamp < f.stamp
             else NeverHeard(id, acts, r)
    ensures forall j, g | 0 <= j < |acts| && Says(id, acts[j], r, g) :: g.stamp < f.stamp
  {
  }
}
