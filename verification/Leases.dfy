/**
 Task ownership leases: granted, renewed at heartbeat cadence, released, and
 swept away when they expire.
 */
module Leases {
  import opened Types

  datatype Lease = Lease(taskId: TaskId, holder: AgentId, expiresAt: real)

  type LeaseMap = map<TaskId, Lease>

  /** Each lease is filed under its task. */
  ghost predicate Filed(leases: LeaseMap) {
    forall t | t in leases :: leases[t].taskId == t
  }

  function Holder(leases: LeaseMap, t: TaskId): Option<AgentId> {
    if t in leases then Some(leases[t].holder) else None
  }

  function Granted(leases: LeaseMap, duration: real, t: TaskId, holder: AgentId, now: real): LeaseMap {
    leases[t := Lease(t, holder, now + duration)]
  }

  function Renewed(leases: LeaseMap, duration: real, t: TaskId, holder: AgentId, now: real): LeaseMap {
    if Holder(leases, t) == Some(holder) then Granted(leases, duration, t, holder, now) else leases
  }

  function Released(leases: LeaseMap, t: TaskId, holder: AgentId): LeaseMap {
    if Holder(leases, t) == Some(holder) then leases - {t} else leases
  }

  function Swept(leases: LeaseMap, now: real): LeaseMap {
    map t | t in leases && leases[t].expiresAt > now :: leases[t]
  }

  /** A renewal heard from `holder`: a free task is leased to it, and of two holders the lower id stays. */
  function Hear(leases: LeaseMap, duration: real, t: TaskId, holder: AgentId, now: real): LeaseMap {
    match Holder(leases, t)
    case None => Granted(leases, duration, t, holder, now)
    case Some(h) =>
      if h == holder then Renewed(leases, duration, t, holder, now)
      else if holder < h then Granted(Released(leases, t, h), duration, t, holder, now)
      else leases
  }

  function HearAll(leases: LeaseMap, duration: real, t: TaskId, renewals: seq<(AgentId, real)>): LeaseMap {
    if renewals == [] then leases
    else
      var last := renewals[|renewals| - 1];
      Hear(HearAll(leases, duration, t, renewals[..|renewals| - 1]), duration, t, last.0, last.1)
  }

  /** Who holds the task or asked for it. */
  ghost function Claimants(leases: LeaseMap, t: TaskId, renewals: seq<(AgentId, real)>): set<AgentId> {
    (if t in leases then {leases[t].holder} else {}) + set r | r in renewals :: r.0
  }

  ghost predicate IsLeast(s: set<AgentId>, h: AgentId) {
    h in s && forall x | x in s :: h <= x
  }

  /**
   Conflicting claims converge: whatever the order and repetition of the
   renewals heard, the lease ends with the lowest claimant.
   */
  lemma {:induction false} ClaimsConverge(leases: LeaseMap, duration: real, t: TaskId, renewals: seq<(AgentId, real)>)
    requires Claimants(leases, t, renewals) != {}
    ensures t in HearAll(leases, duration, t, renewals)
    ensures IsLeast(Claimants(leases, t, renewals), HearAll(leases, duration, t, renewals)[t].holder)
    decreases |renewals|
  {
    if renewals != [] {
      var init, last := renewals[..|renewals| - 1], renewals[|renewals| - 1];
      assert renewals == init + [last];
      assert Claimants(leases, t, renewals) == Claimants(leases, t, init) + {last.0};
      if Claimants(leases, t, init) != {} {
        ClaimsConverge(leases, duration, t, init);
      } else {
        NoClaimants(leases, duration, t, init);
      }
    }
  }

  lemma NoClaimants(leases: LeaseMap, duration: real, t: TaskId, renewals: seq<(AgentId, real)>)
    ensures Claimants(leases, t, renewals) == {} ==> t !in HearAll(leases, duration, t, renewals)
  {
    if renewals != [] {
      assert renewals[0].0 in Claimants(leases, t, renewals);
    }
  }

  /** Replicas that heard the same claimants agree on the holder. */
  lemma ReplicasAgree(leases: LeaseMap, duration: real, t: TaskId, xs: seq<(AgentId, real)>, ys: seq<(AgentId, real)>)
    requires Claimants(leases, t, xs) == Claimants(leases, t, ys)
    ensures Holder(HearAll(leases, duration, t, xs), t) == Holder(HearAll(leases, duration, t, ys), t)
  {
    if Claimants(leases, t, xs) != {} {
      ClaimsConverge(leases, duration, t, xs);
      ClaimsConverge(leases, duration, t, ys);
    } else {
      NoClaimants(leases, duration, t, xs);
      NoClaimants(leases, duration, t, ys);
    }
  }

  class TaskLeases {
    const duration: real
    var leases: LeaseMap

    ghost predicate Valid()
      reads this
    {
      Filed(leases)
    }

    constructor (duration: real)
      requires duration > 0.0
      ensures Valid() && this.duration == duration && leases == map[]
    {
      this.duration := duration;
      leases := map[];
    }

    method Grant(t: TaskId, holder: AgentId, now: real) returns (lease: Lease)
      requires Valid()
      modifies this
      ensures Valid()
      ensures lease == Lease(t, holder, now + duration) && leases == old(leases)[t := lease]
    {
      lease := Lease(t, holder, now + duration);
      leases := leases[t := lease];
    }

    /** Renew if `holder` still owns the lease; a stale holder cannot steal it back. */
    method Renew(t: TaskId, holder: AgentId, now: real) returns (ok: bool)
      requires Valid()
      modifies this
      ensures Valid()
      ensures ok <==> old(t in leases && leases[t].holder == holder)
      ensures leases == Renewed(old(leases), duration, t, holder, now)
    {
      if t !in leases || leases[t].holder != holder {
        return false;
      }
      leases := leases[t := Lease(t, holder, now + duration)];
      return true;
    }

    method Release(t: TaskId, holder: AgentId) returns (ok: bool)
      requires Valid()
      modifies this
      ensures Valid()
      ensures ok <==> old(t in leases && leases[t].holder == holder)
      ensures leases == Released(old(leases), t, holder)
    {
      if t !in leases || leases[t].holder != holder {
        return false;
      }
      leases := leases - {t};
      return true;
    }

    /** Remove and return exactly the expired leases. */
    method Sweep(now: real) returns (expired: set<Lease>)
      requires Valid()
      modifies this
      ensures Valid()
      ensures leases == Swept(old(leases), now)
      ensures forall l :: l in expired <==> exists t :: t in old(leases) && old(leases)[t] == l && l.expiresAt <= now
    {
      expired := set t | t in leases && leases[t].expiresAt <= now :: leases[t];
      var todo := expired;
      while todo != {}
        invariant todo <= expired
        invariant leases == map t | t in old(leases) && (old(leases)[t].expiresAt > now || old(leases)[t] in todo) ::
                    old(leases)[t]
      {
        var l :| l in todo;
        leases := leases - {l.taskId};
        todo := todo - {l};
      }
    }
  }
}
