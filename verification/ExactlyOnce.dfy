/**
 When a task is executed more than once. The protocol does not rule it out: a
 robot takes on what it won unless it knows the task to be completed, and it may
 know too little. What would be needed is said exactly: a dispatch is exclusive
 when the task is neither finished nor under way at another host.
 */
module ExactlyOnce {
  import opened Types
  import opened Sets
  import opened Participation
  import opened Coordination
  import opened FleetRuns

  // ------------------------------------------------------ runs and their extensions

  lemma TwoMore(run: seq<Step>, a: Step, b: Step)
    ensures run + [a, b] == run + [a] + [b]
  {
  }

  lemma JoinAt(run: seq<Step>, k: nat, more: seq<Step>, j: nat)
    requires k <= |run| && j < k + |more|
    ensures var longer := run[..k] + more;
            if j < k then longer[..j] == run[..j] && longer[j] == run[j] else longer[j] in more
  {
  }

  lemma TakeNext(run: seq<Step>, k: nat)
    requires k < |run|
    ensures run[..k + 1] == run[..k] + [run[k]]
  {
  }

  lemma Extend(fleet: Fleet, run: seq<Step>, step: Step)
    requires fleet.Valid() && IsRun(fleet, run) && Enabled(fleet, Execute(fleet, run), step)
    ensures IsRun(fleet, run + [step])
    ensures Execute(fleet, run + [step]) == Apply(fleet, Execute(fleet, run), step)
  {
    assert (run + [step])[..|run|] == run;
  }

  /** No task is finished in two steps of the run. */
  ghost predicate OnceEach(fleet: Fleet, run: seq<Step>)
    requires fleet.Valid() && IsRun(fleet, run)
  {
    forall j: nat, k: nat, t {:trigger FinishesAt(fleet, run, j, t), FinishesAt(fleet, run, k, t)}
      | j < k < |run| && FinishesAt(fleet, run, j, t) :: !FinishesAt(fleet, run, k, t)
  }

  /** Nothing but hosts that finish what they are at. */
  ghost predicate FinishOnly(steps: seq<Step>) {
    forall step | step in steps :: step.Finish?
  }

  // ------------------------------------------------------ exclusive dispatches

  /** `t` is neither finished nor under way at a host other than that of `r`. */
  ghost predicate FreeFor(s: System, r: AgentId, t: TaskId) {
    t !in s.finished && forall q | q in s.host && q != r :: s.host[q] != t
  }

  /** What the host of `r` is given to do in a step, if anything. */
  ghost function Dispatched(fleet: Fleet, s: System, step: Step): Option<TaskId>
    requires Invariant(fleet, s) && Enabled(fleet, s, step)
  {
    if step.TickRobot? then
      var ds := Tick(fleet.settings[step.robot], s.robots[step.robot], step.now, step.benefit).next.dispatches;
      if ds == [] then None else Some(ds[|ds| - 1])
    else None
  }

  /** If the step dispatches a task, the task is free for that robot. */
  ghost predicate Guarded(fleet: Fleet, s: System, step: Step)
    requires Invariant(fleet, s) && Enabled(fleet, s, step)
  {
    var t := Dispatched(fleet, s, step);
    t.Some? ==> FreeFor(s, step.robot, t.value)
  }

  ghost predicate GuardedAt(fleet: Fleet, run: seq<Step>, k: nat)
    requires fleet.Valid() && IsRun(fleet, run) && k < |run|
  {
    StepIsEnabled(fleet, run, k);
    Guarded(fleet, Execute(fleet, run[..k]), run[k])
  }

  /** Every dispatch of the run is exclusive. */
  ghost predicate AllGuarded(fleet: Fleet, run: seq<Step>)
    requires fleet.Valid() && IsRun(fleet, run)
  {
    forall k: nat {:trigger GuardedAt(fleet, run, k)} | k < |run| :: GuardedAt(fleet, run, k)
  }

  /** No task is under way at two hosts, and none that is under way has been finished. */
  ghost predicate Exclusive(s: System) {
    Injective(s.host) && forall r | r in s.host :: s.host[r] !in s.finished
  }

  /**
   The hosts of `s'` are those of `s`, some of them idle by now, except that `r` is given
   `t` if that is some task.
   */
  ghost predicate HostsMove(host: map<AgentId, TaskId>, host': map<AgentId, TaskId>, r: AgentId, t: Option<TaskId>) {
    if t.Some? then host' == host[r := t.value] else forall q | q in host' :: q in host && host'[q] == host[q]
  }

  lemma RecordMoves(host: map<AgentId, TaskId>, r: AgentId, aborts: seq<TaskId>, dispatches: seq<TaskId>)
    ensures var record := HostAfter(Record(host, r), aborts, dispatches);
            HostsMove(host, if record.Some? then host[r := record.value] else host - {r}, r,
                      if dispatches == [] then None else Some(dispatches[|dispatches| - 1]))
  {
  }

  /** What a tick does to the hosts: a dispatch, an abort, or nothing. */
  lemma TickHosts(fleet: Fleet, s: System, r: AgentId, now: real, benefit: TaskId -> real)
    requires Invariant(fleet, s) && Enabled(fleet, s, TickRobot(r, now, benefit))
    ensures ApplyTick(fleet, s, r, now, benefit).finished == s.finished
    ensures HostsMove(s.host, ApplyTick(fleet, s, r, now, benefit).host, r,
                      Dispatched(fleet, s, TickRobot(r, now, benefit)))
  {
    var next := Tick(fleet.settings[r], s.robots[r], now, benefit).next;
    RecordMoves(s.host, r, next.aborts, next.dispatches);
  }

  /** What a step does to the hosts and to the record of finished tasks. */
  lemma StepHosts(fleet: Fleet, s: System, step: Step)
    requires Invariant(fleet, s) && Enabled(fleet, s, step)
    ensures HostsMove(s.host, Apply(fleet, s, step).host, if step.TickRobot? then step.robot else 0,
                      Dispatched(fleet, s, step))
    ensures !step.Finish? ==> Apply(fleet, s, step).finished == s.finished
    ensures step.Finish? ==>
              Apply(fleet, s, step).host == s.host - {step.robot}
              && Apply(fleet, s, step).finished == s.finished + {s.host[step.robot]}
  {
    match step
    case TickRobot(r, now, benefit) => TickHosts(fleet, s, r, now, benefit);
    case _ =>
  }

  lemma MoveKeepsExclusive(s: System, s': System, r: AgentId, t: Option<TaskId>)
    requires Exclusive(s) && HostsMove(s.host, s'.host, r, t) && (t.Some? ==> FreeFor(s, r, t.value))
             && s'.finished == s.finished
    ensures Exclusive(s')
  {
  }

  lemma FinishKeepsExclusive(s: System, s': System, r: AgentId)
    requires Exclusive(s) && r in s.host && s'.host == s.host - {r} && s'.finished == s.finished + {s.host[r]}
    ensures Exclusive(s')
  {
  }

  lemma GuardedKeepsExclusive(fleet: Fleet, s: System, step: Step)
    requires Invariant(fleet, s) && Enabled(fleet, s, step) && Guarded(fleet, s, step) && Exclusive(s)
    ensures Exclusive(Apply(fleet, s, step))
  {
    var s' := Apply(fleet, s, step);
    StepHosts(fleet, s, step);
    if step.Finish? {
      FinishKeepsExclusive(s, s', step.robot);
    } else {
      MoveKeepsExclusive(s, s', if step.TickRobot? then step.robot else 0, Dispatched(fleet, s, step));
    }
  }

  lemma GuardedPrefix(fleet: Fleet, run: seq<Step>, k: nat)
    requires fleet.Valid() && IsRun(fleet, run) && AllGuarded(fleet, run) && k <= |run|
    ensures IsRun(fleet, run[..k]) && AllGuarded(fleet, run[..k])
  {
    PrefixIsRun(fleet, run, k);
    forall j: nat | j < k ensures GuardedAt(fleet, run[..k], j) {
      assert GuardedAt(fleet, run, j);
      assert run[..k][..j] == run[..j];
    }
  }

  lemma {:induction false} GuardedRunsAreExclusive(fleet: Fleet, run: seq<Step>)
    requires fleet.Valid() && IsRun(fleet, run) && AllGuarded(fleet, run)
    ensures Exclusive(Execute(fleet, run))
    decreases |run|
  {
    if run != [] {
      var last := |run| - 1;
      GuardedPrefix(fleet, run, last);
      GuardedRunsAreExclusive(fleet, run[..last]);
      assert GuardedAt(fleet, run, last);
      GuardedKeepsExclusive(fleet, Execute(fleet, run[..last]), run[last]);
    }
  }

  /** With exclusive dispatches only, every task is finished at most once. */
  lemma GuardedRunsFinishOnce(fleet: Fleet, run: seq<Step>)
    requires fleet.Valid() && IsRun(fleet, run) && AllGuarded(fleet, run)
    ensures OnceEach(fleet, run)
  {
    forall j: nat, k: nat, t | j < k < |run| && FinishesAt(fleet, run, j, t) ensures !FinishesAt(fleet, run, k, t) {
      GuardedPrefix(fleet, run, k);
      GuardedRunsAreExclusive(fleet, run[..k]);
      assert FinishesAt(fleet, run[..k], j, t) by {
        assert run[..k][..j] == run[..j];
      }
      FinishedByHosts(fleet, run[..k], t);
    }
  }

  // ------------------------------------------------------ without exclusive dispatches

  lemma StepLive(fleet: Fleet, s: System, step: Step, r: AgentId)
    requires Invariant(fleet, s) && Enabled(fleet, s, step)
    requires r in Apply(fleet, s, step).host && (r in s.host ==> Live(s, r))
    ensures Live(Apply(fleet, s, step), r)
  {
    StepHosts(fleet, s, step);
  }

  /** Only the hosts of live robots work. */
  lemma {:induction false} HostsAreLive(fleet: Fleet, run: seq<Step>, r: AgentId)
    requires fleet.Valid() && IsRun(fleet, run) && r in Execute(fleet, run).host
    ensures Live(Execute(fleet, run), r)
    decreases |run|
  {
    if run != [] {
      var before, last := run[..|run| - 1], run[|run| - 1];
      if r in Execute(fleet, before).host {
        HostsAreLive(fleet, before, r);
      }
      StepLive(fleet, Execute(fleet, before), last, r);
    }
  }

  /** A host that works can be next to finish. */
  lemma FinishNext(fleet: Fleet, run: seq<Step>, r: AgentId)
    requires fleet.Valid() && IsRun(fleet, run) && r in Execute(fleet, run).host
    ensures var s, longer := Execute(fleet, run), run + [Finish(r, 0.0)];
            && IsRun(fleet, longer) && FinishesAt(fleet, longer, |run|, s.host[r])
            && Execute(fleet, longer).host == s.host - {r}
  {
    HostsAreLive(fleet, run, r);
    var step := Finish(r, 0.0);
    Extend(fleet, run, step);
    StepHosts(fleet, Execute(fleet, run), step);
    assert (run + [step])[..|run|] == run;
  }

  lemma FinishesStay(fleet: Fleet, run: seq<Step>, more: seq<Step>, j: nat, t: TaskId)
    requires fleet.Valid() && IsRun(fleet, run) && IsRun(fleet, run + more) && j < |run| && FinishesAt(fleet, run, j, t)
    ensures FinishesAt(fleet, run + more, j, t)
  {
    assert (run + more)[..j] == run[..j];
  }

  /** A task that is under way at `r` although it has been finished can be finished again. */
  lemma FinishedAgain(fleet: Fleet, run: seq<Step>, r: AgentId)
    requires fleet.Valid() && IsRun(fleet, run) && r in Execute(fleet, run).host
    requires Execute(fleet, run).host[r] in Execute(fleet, run).finished
    ensures IsRun(fleet, run + [Finish(r, 0.0)]) && !OnceEach(fleet, run + [Finish(r, 0.0)])
  {
    var t := Execute(fleet, run).host[r];
    FinishedByHosts(fleet, run, t);
    var j: nat :| j < |run| && FinishesAt(fleet, run, j, t);
    FinishNext(fleet, run, r);
    FinishesStay(fleet, run, [Finish(r, 0.0)], j, t);
  }

  /** A task that is under way at two hosts can be finished by both. */
  lemma FinishedByBoth(fleet: Fleet, run: seq<Step>, q: AgentId, r: AgentId)
    requires fleet.Valid() && IsRun(fleet, run) && q != r
    requires q in Execute(fleet, run).host && r in Execute(fleet, run).host
    requires Execute(fleet, run).host[q] == Execute(fleet, run).host[r]
    ensures IsRun(fleet, run + [Finish(q, 0.0), Finish(r, 0.0)])
            && !OnceEach(fleet, run + [Finish(q, 0.0), Finish(r, 0.0)])
  {
    var t, longer := Execute(fleet, run).host[r], run + [Finish(q, 0.0)];
    FinishNext(fleet, run, q);
    FinishNext(fleet, longer, r);
    FinishesStay(fleet, longer, [Finish(r, 0.0)], |run|, t);
    TwoMore(run, Finish(q, 0.0), Finish(r, 0.0));
  }

  /** A task that is under way at `r`, and finished or under way at another host as well. */
  ghost predicate Doubled(s: System, r: AgentId) {
    r in s.host && (s.host[r] in s.finished || exists q :: q in s.host && q != r && s.host[q] == s.host[r])
  }

  lemma DoubledFinishesTwice(fleet: Fleet, run: seq<Step>, r: AgentId) returns (more: seq<Step>)
    requires fleet.Valid() && IsRun(fleet, run) && Doubled(Execute(fleet, run), r)
    ensures FinishOnly(more) && IsRun(fleet, run + more) && !OnceEach(fleet, run + more)
  {
    var s := Execute(fleet, run);
    if s.host[r] in s.finished {
      more := [Finish(r, 0.0)];
      FinishedAgain(fleet, run, r);
    } else {
      var q :| q in s.host && q != r && s.host[q] == s.host[r];
      more := FinishBoth(fleet, run, q, r);
    }
  }

  lemma FinishBoth(fleet: Fleet, run: seq<Step>, q: AgentId, r: AgentId) returns (more: seq<Step>)
    requires fleet.Valid() && IsRun(fleet, run) && q != r
    requires q in Execute(fleet, run).host && r in Execute(fleet, run).host
    requires Execute(fleet, run).host[q] == Execute(fleet, run).host[r]
    ensures FinishOnly(more) && IsRun(fleet, run + more) && !OnceEach(fleet, run + more)
  {
    more := [Finish(q, 0.0), Finish(r, 0.0)];
    FinishedByBoth(fleet, run, q, r);
  }

  lemma DispatchDoubles(s: System, s': System, r: AgentId, t: TaskId)
    requires HostsMove(s.host, s'.host, r, Some(t)) && s'.finished == s.finished && !FreeFor(s, r, t)
    ensures Doubled(s', r)
  {
    if t !in s.finished {
      var q :| q in s.host && q != r && s.host[q] == t;
      assert s'.host[q] == t;
    }
  }

  /** After a dispatch that is not exclusive, hosts that finish what they are at finish some task twice. */
  lemma UnguardedFinishesTwice(fleet: Fleet, run: seq<Step>, step: Step) returns (more: seq<Step>)
    requires fleet.Valid() && IsRun(fleet, run) && Enabled(fleet, Execute(fleet, run), step)
    requires !Guarded(fleet, Execute(fleet, run), step)
    ensures FinishOnly(more) && IsRun(fleet, run + [step] + more) && !OnceEach(fleet, run + [step] + more)
  {
    var s := Execute(fleet, run);
    Extend(fleet, run, step);
    StepHosts(fleet, s, step);
    DispatchDoubles(s, Execute(fleet, run + [step]), step.robot, Dispatched(fleet, s, step).value);
    more := DoubledFinishesTwice(fleet, run + [step], step.robot);
  }

  // ------------------------------------------------------ exactly when

  /** From no point of the run on can hosts, by finishing what they are at, finish a task twice. */
  ghost predicate SafelyOnce(fleet: Fleet, run: seq<Step>)
    requires fleet.Valid() && IsRun(fleet, run)
  {
    forall k: nat, more {:trigger IsRun(fleet, run[..k] + more)}
      | k <= |run| && FinishOnly(more) && IsRun(fleet, run[..k] + more) :: OnceEach(fleet, run[..k] + more)
  }

  /** Finishing is no dispatch, so it leaves a run guarded. */
  lemma FinishesAreGuarded(fleet: Fleet, run: seq<Step>, k: nat, more: seq<Step>)
    requires fleet.Valid() && IsRun(fleet, run) && AllGuarded(fleet, run) && k <= |run|
    requires FinishOnly(more) && IsRun(fleet, run[..k] + more)
    ensures AllGuarded(fleet, run[..k] + more)
  {
    var longer := run[..k] + more;
    forall j: nat | j < |longer| ensures GuardedAt(fleet, longer, j) {
      JoinAt(run, k, more, j);
      if j < k {
        assert GuardedAt(fleet, run, j);
        SamePrefix(fleet, run, longer, j);
      } else {
        FinishIsGuarded(fleet, longer, j);
      }
    }
  }

  lemma SamePrefix(fleet: Fleet, run: seq<Step>, run': seq<Step>, j: nat)
    requires fleet.Valid() && IsRun(fleet, run) && IsRun(fleet, run') && j < |run| && j < |run'|
    requires run[..j] == run'[..j] && run[j] == run'[j] && GuardedAt(fleet, run, j)
    ensures GuardedAt(fleet, run', j)
  {
  }

  lemma FinishIsGuarded(fleet: Fleet, run: seq<Step>, j: nat)
    requires fleet.Valid() && IsRun(fleet, run) && j < |run| && run[j].Finish?
    ensures GuardedAt(fleet, run, j)
  {
    StepIsEnabled(fleet, run, j);
  }

  lemma UnsafeAt(fleet: Fleet, run: seq<Step>, k: nat, before: seq<Step>, more: seq<Step>)
    requires fleet.Valid() && IsRun(fleet, run) && k <= |run| && before == run[..k]
    requires FinishOnly(more) && IsRun(fleet, before + more) && !OnceEach(fleet, before + more)
    ensures !SafelyOnce(fleet, run)
  {
  }

  lemma UnguardedIsUnsafe(fleet: Fleet, run: seq<Step>, k: nat)
    requires fleet.Valid() && IsRun(fleet, run) && k < |run| && !GuardedAt(fleet, run, k)
    ensures !SafelyOnce(fleet, run)
  {
    StepIsEnabled(fleet, run, k);
    var before, step := run[..k], run[k];
    var more := UnguardedFinishesTwice(fleet, before, step);
    TakeNext(run, k);
    UnsafeAt(fleet, run, k + 1, before + [step], more);
  }

  lemma GuardedIsSafe(fleet: Fleet, run: seq<Step>)
    requires fleet.Valid() && IsRun(fleet, run) && AllGuarded(fleet, run)
    ensures SafelyOnce(fleet, run)
  {
    forall k: nat, more | k <= |run| && FinishOnly(more) && IsRun(fleet, run[..k] + more)
      ensures OnceEach(fleet, run[..k] + more)
    {
      FinishesAreGuarded(fleet, run, k, more);
      GuardedRunsFinishOnce(fleet, run[..k] + more);
    }
  }

  /**
   Exactly when every dispatch is exclusive is there no way for a task to be
   finished twice, now or by letting the hosts of some point of the run finish.
   */
  lemma OnceIffGuarded(fleet: Fleet, run: seq<Step>)
    requires fleet.Valid() && IsRun(fleet, run)
    ensures SafelyOnce(fleet, run) <==> AllGuarded(fleet, run)
  {
    if AllGuarded(fleet, run) {
      GuardedIsSafe(fleet, run);
    } else {
      var k: nat :| k < |run| && !GuardedAt(fleet, run, k);
      UnguardedIsUnsafe(fleet, run, k);
    }
  }
}
