/**
 What the state of a fleet records about the past, in terms of the steps of the run:
 the messages under way, the announcements framed and heard, and the dead.
 */
module FleetRecords {
  import opened Types
  import opened Messages
  import opened Participation
  import opened Coordination
  import opened FleetRuns

  /** What the step sends. */
  ghost function SentBy(fleet: Fleet, s: System, step: Step): set<Message>
    requires Invariant(fleet, s) && Enabled(fleet, s, step)
  {
    match step
    case TickRobot(r, now, benefit) => Tick(fleet.settings[r], s.robots[r], now, benefit).out
    case Finish(r, now) => TaskFinished(fleet.settings[r], s.robots[r], s.host[r], now).out
    case _ => {}
  }

  lemma StepRecords(fleet: Fleet, s: System, step: Step)
    requires Invariant(fleet, s) && Enabled(fleet, s, step)
    ensures var s', sent := Apply(fleet, s, step), SentBy(fleet, s, step);
            && s'.net == s.net + sent - (if step.Lose? then {step.message} else {})
            && s'.framed == s.framed + Announcements(sent)
            && s'.dead == s.dead + if step.Kill? then {step.robot} else {}
  {
  }

  /** The announcements `r` receives or sends in this step. */
  ghost function HeardIn(fleet: Fleet, s: System, step: Step, r: AgentId): set<RoundAnnouncement>
    requires Invariant(fleet, s) && Enabled(fleet, s, step)
  {
    match step
    case Receive(q, m, _, _) => if q == r then Announcements({m}) else {}
    case TickRobot(q, _, _) => if q == r then Announcements(SentBy(fleet, s, step)) else {}
    case _ => {}
  }

  lemma OthersHearNothing(s: System, q: AgentId, p: Participant, more: set<RoundAnnouncement>, r: AgentId)
    requires q in s.heard && r in s.heard
    ensures WithRobot(s, q, p, more).heard[r] == s.heard[r] + if q == r then more else {}
  {
  }

  lemma StepHears(fleet: Fleet, s: System, step: Step, r: AgentId)
    requires Invariant(fleet, s) && Enabled(fleet, s, step) && r in s.robots
    ensures r in s.heard && r in Apply(fleet, s, step).heard
    ensures Apply(fleet, s, step).heard[r] == s.heard[r] + HeardIn(fleet, s, step, r)
  {
    match step
    case Receive(q, m, now, benefit) =>
      OthersHearNothing(s, q, HandleMessage(fleet.settings[q], s.robots[q], m, now, benefit), Announcements({m}), r);
    case Inject(q, task, now, benefit) => InjectionHears(fleet, s, q, task, now, benefit, r);
    case TickRobot(q, now, benefit) =>
    case Finish(q, now) => FinishHears(fleet, s, q, now, r);
    case Kill(q) =>
    case Lose(m) =>
  }

  lemma InjectionHears(fleet: Fleet, s: System, q: AgentId, task: Task, now: real, benefit: TaskId -> real, r: AgentId)
    requires q in s.robots && q in s.heard && q in fleet.settings && r in s.heard
    ensures ApplyReceive(fleet, s, q, TaskInjected(task, now), now, benefit).heard[r] == s.heard[r]
  {
    assert Announcements({TaskInjected(task, now)}) == {};
  }

  lemma FinishHears(fleet: Fleet, s: System, q: AgentId, now: real, r: AgentId)
    requires q in s.robots && q in s.heard && q in fleet.settings && q in s.host && r in s.heard
    ensures ApplyFinish(fleet, s, q, now).heard[r] == s.heard[r]
  {
    assert Announcements(TaskFinished(fleet.settings[q], s.robots[q], s.host[q], now).out) == {};
  }

  // ------------------------------------------------------ in runs

  /** In step k of the run this message is sent. */
  ghost predicate SentAt(fleet: Fleet, run: seq<Step>, k: nat, m: Message)
    requires fleet.Valid() && IsRun(fleet, run) && k < |run|
  {
    StepIsEnabled(fleet, run, k);
    m in SentBy(fleet, Execute(fleet, run[..k]), run[k])
  }

  /** In step k robot `r` receives this announcement or sends it. */
  ghost predicate HeardAt(fleet: Fleet, run: seq<Step>, k: nat, r: AgentId, a: RoundAnnouncement)
    requires fleet.Valid() && IsRun(fleet, run) && k < |run|
  {
    StepIsEnabled(fleet, run, k);
    a in HeardIn(fleet, Execute(fleet, run[..k]), run[k], r)
  }

  /** The steps that send it. */
  ghost function Sends(fleet: Fleet, run: seq<Step>, m: Message): iset<nat>
    requires fleet.Valid() && IsRun(fleet, run)
  {
    iset k: nat | k < |run| && SentAt(fleet, run, k, m)
  }

  /** It is not lost after step k. */
  ghost predicate NotLostSince(run: seq<Step>, k: nat, m: Message) {
    forall j | k < j < |run| :: run[j] != Lose(m)
  }

  /** Sent in one of these steps, and not lost since. */
  ghost predicate UnderWay(sends: iset<nat>, run: seq<Step>, m: Message) {
    exists k: nat :: k in sends && NotLostSince(run, k, m)
  }

  lemma RecordedBefore(fleet: Fleet, run: seq<Step>, k: nat)
    requires fleet.Valid() && IsRun(fleet, run) && k < |run| - 1
    ensures IsRun(fleet, run[..|run| - 1])
    ensures forall m :: SentAt(fleet, run, k, m) <==> SentAt(fleet, run[..|run| - 1], k, m)
    ensures forall r, a :: HeardAt(fleet, run, k, r, a) <==> HeardAt(fleet, run[..|run| - 1], k, r, a)
  {
    assert run[..|run| - 1][..k] == run[..k];
  }

  lemma UnderWayNext(sends: iset<nat>, sends': iset<nat>, run: seq<Step>, m: Message)
    requires run != [] && forall k: nat | k in sends :: k < |run| - 1
    requires forall k: nat :: k in sends' <==> k in sends || (k == |run| - 1 && |run| - 1 in sends')
    ensures UnderWay(sends', run, m)
            <==> (UnderWay(sends, run[..|run| - 1], m) && run[|run| - 1] != Lose(m)) || |run| - 1 in sends'
  {
    var before, last := run[..|run| - 1], |run| - 1;
    forall k: nat | k < last ensures NotLostSince(run, k, m) <==> NotLostSince(before, k, m) && run[last] != Lose(m) {
      assert forall j: nat | j < last :: before[j] == run[j];
      if NotLostSince(run, k, m) {
        assert run[last] != Lose(m);
      }
    }
    assert NotLostSince(run, last, m);
    if UnderWay(sends, before, m) && run[last] != Lose(m) {
      var k: nat :| k in sends && NotLostSince(before, k, m);
      assert k in sends' && NotLostSince(run, k, m);
    }
  }

  lemma SendsNext(fleet: Fleet, run: seq<Step>, m: Message)
    requires fleet.Valid() && IsRun(fleet, run) && run != []
    ensures var before, last := run[..|run| - 1], |run| - 1;
            && IsRun(fleet, before)
            && (forall k: nat :: k in Sends(fleet, run, m)
                                 <==> k in Sends(fleet, before, m) || (k == last && last in Sends(fleet, run, m)))
  {
    forall k: nat | k < |run| - 1
      ensures SentAt(fleet, run, k, m) <==> SentAt(fleet, run[..|run| - 1], k, m)
    {
      RecordedBefore(fleet, run, k);
    }
  }

  lemma SentLast(fleet: Fleet, run: seq<Step>, m: Message)
    requires fleet.Valid() && IsRun(fleet, run) && run != []
    ensures var before, last := run[..|run| - 1], |run| - 1;
            && IsRun(fleet, before) && Enabled(fleet, Execute(fleet, before), run[last])
            && (last in Sends(fleet, run, m) <==> m in SentBy(fleet, Execute(fleet, before), run[last]))
  {
  }

  /** The messages under way are those that were sent and not lost since. */
  lemma {:induction false} NetIsWhatWasSent(fleet: Fleet, run: seq<Step>, m: Message)
    requires fleet.Valid() && IsRun(fleet, run)
    ensures m in Execute(fleet, run).net <==> UnderWay(Sends(fleet, run, m), run, m)
    decreases |run|
  {
    if run != [] {
      var before := run[..|run| - 1];
      NetIsWhatWasSent(fleet, before, m);
      SendsNext(fleet, run, m);
      SentLast(fleet, run, m);
      UnderWayNext(Sends(fleet, before, m), Sends(fleet, run, m), run, m);
      StepRecords(fleet, Execute(fleet, before), run[|run| - 1]);
    }
  }

  /** There is such a step. */
  ghost predicate Occurs(steps: iset<nat>) {
    exists k: nat :: k in steps
  }

  lemma OccursNext(steps: iset<nat>, steps': iset<nat>, last: nat)
    requires forall k: nat :: k in steps' <==> k in steps || (k == last && last in steps')
    ensures Occurs(steps') <==> Occurs(steps) || last in steps'
  {
    if Occurs(steps) {
      var k: nat :| k in steps;
      assert k in steps';
    }
  }

  /** What is on record as framed is what was announced. */
  lemma {:induction false} FramedIsWhatWasAnnounced(fleet: Fleet, run: seq<Step>, a: RoundAnnouncement)
    requires fleet.Valid() && IsRun(fleet, run)
    ensures a in Execute(fleet, run).framed <==> Occurs(Sends(fleet, run, Announce(a)))
    decreases |run|
  {
    if run != [] {
      var before, last := run[..|run| - 1], |run| - 1;
      FramedIsWhatWasAnnounced(fleet, before, a);
      SendsNext(fleet, run, Announce(a));
      SentLast(fleet, run, Announce(a));
      StepFrames(fleet, Execute(fleet, before), run[last], a);
      OccursNext(Sends(fleet, before, Announce(a)), Sends(fleet, run, Announce(a)), last);
    }
  }

  lemma StepFrames(fleet: Fleet, s: System, step: Step, a: RoundAnnouncement)
    requires Invariant(fleet, s) && Enabled(fleet, s, step)
    ensures a in Apply(fleet, s, step).framed <==> a in s.framed || Announce(a) in SentBy(fleet, s, step)
  {
    StepRecords(fleet, s, step);
  }

  /** The steps in which robot `r` receives this announcement or sends it. */
  ghost function Hearings(fleet: Fleet, run: seq<Step>, r: AgentId, a: RoundAnnouncement): iset<nat>
    requires fleet.Valid() && IsRun(fleet, run)
  {
    iset k: nat | k < |run| && HeardAt(fleet, run, k, r, a)
  }

  lemma HearingsNext(fleet: Fleet, run: seq<Step>, r: AgentId, a: RoundAnnouncement)
    requires fleet.Valid() && IsRun(fleet, run) && run != []
    ensures var before, last := run[..|run| - 1], |run| - 1;
            && IsRun(fleet, before)
            && (forall k: nat :: k in Hearings(fleet, run, r, a)
                                 <==> k in Hearings(fleet, before, r, a)
                                      || (k == last && last in Hearings(fleet, run, r, a)))
  {
    forall k: nat | k < |run| - 1
      ensures HeardAt(fleet, run, k, r, a) <==> HeardAt(fleet, run[..|run| - 1], k, r, a)
    {
      RecordedBefore(fleet, run, k);
    }
  }

  lemma HeardLast(fleet: Fleet, run: seq<Step>, r: AgentId, a: RoundAnnouncement)
    requires fleet.Valid() && IsRun(fleet, run) && run != []
    ensures var before, last := run[..|run| - 1], |run| - 1;
            && IsRun(fleet, before) && Enabled(fleet, Execute(fleet, before), run[last])
            && (last in Hearings(fleet, run, r, a) <==> a in HeardIn(fleet, Execute(fleet, before), run[last], r))
  {
  }

  /** What a robot is on record to have heard is what it received or sent. */
  lemma {:induction false} HeardIsWhatWasReceived(fleet: Fleet, run: seq<Step>, r: AgentId, a: RoundAnnouncement)
    requires fleet.Valid() && IsRun(fleet, run) && r in fleet.settings
    ensures r in Execute(fleet, run).heard
    ensures a in Execute(fleet, run).heard[r] <==> Occurs(Hearings(fleet, run, r, a))
    decreases |run|
  {
    if run != [] {
      var before, last := run[..|run| - 1], |run| - 1;
      HeardIsWhatWasReceived(fleet, before, r, a);
      HearingsNext(fleet, run, r, a);
      HeardLast(fleet, run, r, a);
      StepHears(fleet, Execute(fleet, before), run[last], r);
      OccursNext(Hearings(fleet, before, r, a), Hearings(fleet, run, r, a), last);
    }
  }

  lemma StepKills(fleet: Fleet, s: System, step: Step, r: AgentId)
    requires Invariant(fleet, s) && Enabled(fleet, s, step)
    ensures r in Apply(fleet, s, step).dead <==> r in s.dead || step == Kill(r)
  {
    StepRecords(fleet, s, step);
  }

  lemma InOneMore<T>(s: seq<T>, x: T)
    requires s != []
    ensures x in s <==> x in s[..|s| - 1] || x == s[|s| - 1]
  {
    assert s == s[..|s| - 1] + [s[|s| - 1]];
  }

  /** The dead are those a step has killed. */
  lemma {:induction false} DeadIsWhoWasKilled(fleet: Fleet, run: seq<Step>, r: AgentId)
    requires fleet.Valid() && IsRun(fleet, run)
    ensures r in Execute(fleet, run).dead <==> Kill(r) in run
    decreases |run|
  {
    if run != [] {
      DeadIsWhoWasKilled(fleet, run[..|run| - 1], r);
      StepKills(fleet, Execute(fleet, run[..|run| - 1]), run[|run| - 1], r);
      InOneMore(run, Kill(r));
    }
  }
}
