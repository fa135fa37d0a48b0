/**
 How long leases last in one robot's book: what each act does to a lease, and that
 no lease outlives its holder's last sign by more than the lease duration.
 */
module LeaseTimes {
  import opened Types
  import opened Messages
  import opened Leases
  import opened Participation
  import opened RobotLives
  import opened Knowledge
  import opened Leaseholding

  function LeaseOf(leases: LeaseMap, t: TaskId): Option<Lease> {
    if t in leases then Some(leases[t]) else None
  }

  /** The lease, unless it has expired by now. */
  function Unexpired(l: Option<Lease>, now: real): Option<Lease> {
    if l.Some? && l.value.expiresAt > now then l else None
  }

  // ------------------------------------------------------ one act

  /** A claim heard is filed from now on unless a lower id holds the task, and a completion ends the lease. */
  lemma HeardLeaseTime(s: Settings, p: Participant, m: Message, now: real, benefit: TaskId -> real, t: TaskId)
    ensures var l, l' := LeaseOf(p.leases, t), LeaseOf(HandleMessage(s, p, m, now, benefit).leases, t);
            match m
            case LeaseRenewal(u, r, _) =>
              l' == if u != t || (l.Some? && l.value.holder < r) then l else Some(Lease(t, r, now + s.leaseDuration))
            case TaskCompleted(u, _, _) => l' == if u == t then None else l
            case _ => l' == l
  {
    match m
    case Announce(a) => AdoptWork(s.id, p, a, now, benefit);
    case RoundGossip(roundId, inner) => GossipWork(s.id, p, roundId, inner);
    case Heartbeat(r, stamp, idle) =>
    case LeaseRenewal(u, r, stamp) => ClaimedLease(p.leases, s.leaseDuration, u, r, now, t);
    case TaskCompleted(u, completer, stamp) =>
    case TaskInjected(task, stamp) =>
  }

  lemma ClaimedLease(leases: LeaseMap, duration: real, u: TaskId, r: AgentId, now: real, t: TaskId)
    ensures var l := LeaseOf(leases, t);
            LeaseOf(Hear(leases, duration, u, r, now), t)
            == if u != t || (l.Some? && l.value.holder < r) then l else Some(Lease(t, r, now + duration))
  {
  }

  lemma BeatLease(s: Settings, p: Participant, now: real, t: TaskId)
    ensures var l, l' := LeaseOf(p.leases, t), LeaseOf(TickHeartbeat(s, p, now).next.leases, t);
            l' == if p.executing == Some(t) && l.Some? && l.value.holder == s.id && IsDue(s, p, now)
                  then Some(Lease(t, s.id, now + s.leaseDuration)) else l
  {
  }

  /** The robot keeps up its own lease of `t` in this tick. */
  ghost predicate KeepsOwn(s: Settings, p: Participant, now: real, t: TaskId)
    requires Workable(p)
  {
    var l := Unexpired(LeaseOf(p.leases, t), now);
    || Won(s, p) == Some(t)
    || (l.Some? && l.value.holder == s.id && IsDue(s, p, now) && TickOwn(s, p, now).next.executing == Some(t))
  }

  /** A tick renews the lease of the robot's own work when a heartbeat is due, and lets those go that have expired. */
  lemma OwnPartLease(s: Settings, p: Participant, now: real, t: TaskId)
    requires Workable(p)
    ensures LeaseOf(TickOwn(s, p, now).next.leases, t)
            == if KeepsOwn(s, p, now, t) then Some(Lease(t, s.id, now + s.leaseDuration))
               else Unexpired(LeaseOf(p.leases, t), now)
  {
    var q := Refresh(s, p, now);
    RefreshKeepsWorkable(s, p, now);
    RefreshWork(s, p, now);
    RoundWork(s, q, now);
    var r := TickRound(s, q, now).next;
    RoundKeepsPace(s, q, now);
    BeatWork(s, r, now);
    BeatLease(s, r, now, t);
  }

  lemma TickedLease(s: Settings, p: Participant, now: real, benefit: TaskId -> real, t: TaskId)
    requires Workable(p)
    ensures After(s, p, Act.Ticks(now, benefit)).leases == TickOwn(s, p, now).next.leases
  {
    if !TickRaises(s, p, now) {
      TurnWork(s, TickOwn(s, p, now).next, now, benefit);
    }
  }

  lemma FinishedLease(s: Settings, p: Participant, u: TaskId, now: real, t: TaskId)
    ensures var l, l' := LeaseOf(p.leases, t), LeaseOf(TaskFinished(s, p, u, now).next.leases, t);
            l' == if u == t && l.Some? && l.value.holder == s.id then None else l
  {
    var done := Done(s, p, u);
    assert done.leases == Released(p.leases, u, s.id);
    if u in p.tasks {
      assert WorkedOn(done, p.tasks[u]).leases == done.leases;
    }
  }

  // ------------------------------------------------------ a whole life

  /** A sign that `h` keeps the lease of `t`: its claim is heard, or it is the robot itself and ticks. */
  ghost predicate Signs(id: AgentId, act: Act, t: TaskId, h: AgentId) {
    Claims(act, t, h) || (act.Ticks? && h == id)
  }

  /** The lease runs from a sign of its holder in act k, and no tick since has found it expired. */
  ghost predicate RunsSince(s: Settings, acts: seq<Act>, t: TaskId, l: Lease, k: nat)
    requires k < |acts|
  {
    && Signs(s.id, acts[k], t, l.holder) && l.expiresAt == acts[k].now + s.leaseDuration
    && forall j | k < j < |acts| && acts[j].Ticks? :: acts[j].now < l.expiresAt
  }

  ghost predicate HasRun(s: Settings, acts: seq<Act>, t: TaskId, l: Lease) {
    exists k: nat :: k < |acts| && RunsSince(s, acts, t, l, k)
  }

  lemma RunsOn(s: Settings, acts: seq<Act>, act: Act, t: TaskId, l: Lease)
    requires HasRun(s, acts, t, l) && (act.Ticks? ==> act.now < l.expiresAt)
    ensures HasRun(s, acts + [act], t, l)
  {
    var k: nat :| k < |acts| && RunsSince(s, acts, t, l, k);
    assert RunsSince(s, acts + [act], t, l, k);
  }

  lemma RunsFromNow(s: Settings, acts: seq<Act>, act: Act, t: TaskId, l: Lease)
    requires Signs(s.id, act, t, l.holder) && l.expiresAt == act.now + s.leaseDuration
    ensures HasRun(s, acts + [act], t, l)
  {
    assert RunsSince(s, acts + [act], t, l, |acts|);
  }

  /** One act: the lease is as it was and has not been found expired, or runs from now on. */
  lemma ActOnLease(s: Settings, p: Participant, act: Act, t: TaskId)
    requires Workable(p)
    ensures var l, l' := LeaseOf(p.leases, t), LeaseOf(After(s, p, act).leases, t);
            l'.Some? ==>
              || (l' == l && (act.Ticks? ==> act.now < l'.value.expiresAt))
              || (Signs(s.id, act, t, l'.value.holder) && l'.value.expiresAt == act.now + s.leaseDuration)
  {
    match act
    case Hears(m, now, benefit) => HeardLeaseTime(s, p, m, now, benefit, t);
    case Ticks(now, benefit) =>
      OwnPartLease(s, p, now, t);
      TickedLease(s, p, now, benefit, t);
    case Finishes(u, now) => FinishedLease(s, p, u, now, t);
  }

  /** Every lease in the book runs from a sign of its holder, a lease duration before it ends. */
  lemma {:induction false} LeasesRunFromSigns(s: Settings, acts: seq<Act>, t: TaskId)
    ensures var l := LeaseOf(Lived(s, Start(s), acts).leases, t);
            l.Some? ==> HasRun(s, acts, t, l.value)
    decreases |acts|
  {
    if acts != [] {
      var init, act := acts[..|acts| - 1], acts[|acts| - 1];
      LeasesRunFromSigns(s, init, t);
      ActOnLease(s, Lived(s, Start(s), init), act, t);
      LeaseGoesOn(s, init, act, t, LeaseOf(Lived(s, Start(s), init).leases, t),
                  LeaseOf(Lived(s, Start(s), acts).leases, t));
      OneMoreAct(acts);
    }
  }

  lemma LeaseGoesOn(s: Settings, acts: seq<Act>, act: Act, t: TaskId, l: Option<Lease>, l': Option<Lease>)
    requires l.Some? ==> HasRun(s, acts, t, l.value)
    requires l'.Some? ==>
               || (l' == l && (act.Ticks? ==> act.now < l'.value.expiresAt))
               || (Signs(s.id, act, t, l'.value.holder) && l'.value.expiresAt == act.now + s.leaseDuration)
    ensures l'.Some? ==> HasRun(s, acts + [act], t, l'.value)
  {
    if l'.Some? {
      if Signs(s.id, act, t, l'.value.holder) && l'.value.expiresAt == act.now + s.leaseDuration {
        RunsFromNow(s, acts, act, t, l'.value);
      } else {
        RunsOn(s, acts, act, t, l'.value);
      }
    }
  }

  /** The last claim of `h` for `t` that was heard is a lease duration ago or more. */
  ghost predicate SilentSince(s: Settings, acts: seq<Act>, t: TaskId, h: AgentId, now: real) {
    forall k | 0 <= k < |acts| && Claims(acts[k], t, h) :: acts[k].now + s.leaseDuration <= now
  }

  /**
   Recovery: whoever has not been heard to claim a task for as long as a lease lasts
   does not hold it after a tick, so work of a robot that has died becomes available.
   */
  lemma SilentHoldersLose(s: Settings, acts: seq<Act>, now: real, benefit: TaskId -> real, t: TaskId, h: AgentId)
    requires h != s.id && SilentSince(s, acts, t, h, now)
    ensures Holder(Lived(s, Start(s), acts + [Act.Ticks(now, benefit)]).leases, t) != Some(h)
  {
    var more := acts + [Act.Ticks(now, benefit)];
    LeasesRunFromSigns(s, more, t);
    var l := LeaseOf(Lived(s, Start(s), more).leases, t);
    if l.Some? {
      SilentLeasesHaveRun(s, acts, now, benefit, t, l.value);
    }
  }

  lemma SilentLeasesHaveRun(s: Settings, acts: seq<Act>, now: real, benefit: TaskId -> real, t: TaskId, l: Lease)
    ensures l.holder != s.id && SilentSince(s, acts, t, l.holder, now)
            ==> !HasRun(s, acts + [Act.Ticks(now, benefit)], t, l)
  {
    var more := acts + [Act.Ticks(now, benefit)];
    forall k: nat | k < |more|
      ensures l.holder != s.id && SilentSince(s, acts, t, l.holder, now) ==> !RunsSince(s, more, t, l, k)
    {
      assert k < |acts| ==> more[k] == acts[k];
      assert more[|acts|].Ticks? && more[|acts|].now == now;
    }
  }
}
