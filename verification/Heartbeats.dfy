/**
 Failure detection by heartbeats: a robot counts as alive while it was heard
 from within the timeout.
 */
module Heartbeats {
  import opened Types

  type Seen = map<AgentId, real>

  /** Robots that changed state in a sweep. */
  datatype LivenessUpdate = LivenessUpdate(failed: set<AgentId>, recovered: set<AgentId>)

  function Recorded(seen: Seen, robot: AgentId, now: real): Seen {
    if robot !in seen || now > seen[robot] then seen[robot := now] else seen
  }

  function RecordedAll(seen: Seen, beats: seq<(AgentId, real)>): Seen {
    if beats == [] then seen
    else
      var last := beats[|beats| - 1];
      Recorded(RecordedAll(seen, beats[..|beats| - 1]), last.0, last.1)
  }

  predicate IsAlive(seen: Seen, timeout: real, robot: AgentId, now: real) {
    robot in seen && now - seen[robot] <= timeout
  }

  function Alive(seen: Seen, timeout: real, now: real): set<AgentId> {
    set r | r in seen && now - seen[r] <= timeout
  }

  /**
   Whatever the order and repetition of the heartbeats, a robot counts as alive
   exactly when some heartbeat of it is no older than the timeout.
   */
  lemma {:induction false} AliveMeansHeardRecently(beats: seq<(AgentId, real)>, timeout: real, robot: AgentId,
                                                   now: real)
    ensures IsAlive(RecordedAll(map[], beats), timeout, robot, now)
            <==> exists b :: b in beats && b.0 == robot && now - b.1 <= timeout
    decreases |beats|
  {
    if beats != [] {
      var init, last := beats[..|beats| - 1], beats[|beats| - 1];
      assert beats == init + [last];
      AliveMeansHeardRecently(init, timeout, robot, now);
    }
  }

  class HeartbeatMonitor {
    const timeout: real
    var lastSeen: Seen
    var alive: map<AgentId, bool>

    constructor (interval: real, eta: int)
      requires interval > 0.0 && eta >= 1
      ensures timeout == eta as real * interval && lastSeen == map[] && alive == map[]
    {
      timeout := eta as real * interval;
      lastSeen, alive := map[], map[];
    }

    method Record(robot: AgentId, now: real)
      modifies this`lastSeen
      ensures lastSeen == Recorded(old(lastSeen), robot, now)
    {
      if robot !in lastSeen || now > lastSeen[robot] {
        lastSeen := lastSeen[robot := now];
      }
    }

    /**
     Re-evaluate liveness. Exactly the robots whose state changed are reported;
     one seen for the first time counts as alive until then.
     */
    method Sweep(now: real) returns (update: LivenessUpdate)
      modifies this`alive
      ensures alive.Keys == old(alive).Keys + lastSeen.Keys
      ensures forall r | r in alive :: alive[r] == if r in lastSeen then IsAlive(lastSeen, timeout, r, now)
              else old(alive)[r]
      ensures forall r :: r in update.failed <==>
                r in lastSeen && !IsAlive(lastSeen, timeout, r, now) && (r in old(alive) ==> old(alive)[r])
      ensures forall r :: r in update.recovered <==>
                r in lastSeen && IsAlive(lastSeen, timeout, r, now) && r in old(alive) && !old(alive)[r]
    {
      var failed: set<AgentId>, recovered: set<AgentId> := {}, {};
      var todo := lastSeen.Keys;
      while todo != {}
        invariant todo <= lastSeen.Keys
        invariant alive.Keys == old(alive).Keys + (lastSeen.Keys - todo)
        invariant forall r | r in alive ::
                    alive[r] == if r in lastSeen.Keys - todo then IsAlive(lastSeen, timeout, r, now) else old(alive)[r]
        invariant forall r :: r in failed <==>
                    r in lastSeen.Keys - todo && !IsAlive(lastSeen, timeout, r, now)
                      && (r in old(alive) ==> old(alive)[r])
        invariant forall r :: r in recovered <==>
                    r in lastSeen.Keys - todo && IsAlive(lastSeen, timeout, r, now) && r in old(alive) && !old(alive)[r]
      {
        var r :| r in todo;
        var aliveNow := now - lastSeen[r] <= timeout;
        if r !in alive {
          alive := alive[r := aliveNow];
          if !aliveNow {
            failed := failed + {r};
          }
        } else if aliveNow != alive[r] {
          alive := alive[r := aliveNow];
          if aliveNow {
            recovered := recovered + {r};
          } else {
            failed := failed + {r};
          }
        }
        todo := todo - {r};
      }
      update := LivenessUpdate(failed, recovered);
    }
  }
}
