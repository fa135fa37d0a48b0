/**
 What robots tell each other, and which of two round announcements wins.
 */
module Messages {
  import opened Types

  /** A coordinator frames a round: which tasks, which robots, which parameters. */
  datatype RoundAnnouncement = RoundAnnouncement(
    roundId: int, coordinator: AgentId, taskIds: seq<TaskId>, participants: seq<AgentId>,
    idleSlots: int, epsilon: real, quiescenceRounds: int)
  {
    /** `other` should replace this announcement: higher round, then lower coordinator. */
    predicate Precedes(other: RoundAnnouncement) {
      if other.roundId != roundId then other.roundId > roundId else other.coordinator < coordinator
    }
  }

  datatype Message =
    | Heartbeat(sender: AgentId, stamp: real, idle: bool)
    | Announce(announcement: RoundAnnouncement)
    | RoundGossip(roundId: int, inner: PriceTableMessage)
    | LeaseRenewal(taskId: TaskId, holder: AgentId, stamp: real)
    | TaskCompleted(taskId: TaskId, completer: AgentId, stamp: real)
    | TaskInjected(task: Task, stamp: real)

  ghost predicate SameKey(a: RoundAnnouncement, b: RoundAnnouncement) {
    a.roundId == b.roundId && a.coordinator == b.coordinator
  }

  /** Round and coordinator determine the rest of an announcement. */
  ghost predicate KeysDetermine(s: set<RoundAnnouncement>) {
    forall a, b | a in s && b in s && SameKey(a, b) :: a == b
  }

  /** Precedence is a strict order, total on keys. */
  lemma PrecedenceIsOrder(a: RoundAnnouncement, b: RoundAnnouncement, c: RoundAnnouncement)
    ensures !a.Precedes(a)
    ensures a.Precedes(b) && b.Precedes(c) ==> a.Precedes(c)
    ensures a.Precedes(b) || b.Precedes(a) || SameKey(a, b)
    ensures !(a.Precedes(b) && b.Precedes(a))
  {
  }

  /** `a` is of the highest round in `s`, and there of the lowest coordinator. */
  ghost predicate IsLatest(s: set<RoundAnnouncement>, a: RoundAnnouncement) {
    a in s && forall b | b in s :: b.roundId < a.roundId || (b.roundId == a.roundId && a.coordinator <= b.coordinator)
  }

  /** What a robot holds when it has adopted the best of what it heard. */
  ghost predicate Adopted(heard: set<RoundAnnouncement>, current: Option<RoundAnnouncement>) {
    match current
    case None => heard == {}
    case Some(a) => IsLatest(heard, a)
  }

  /** One more announcement heard: it replaces the current one only if that precedes it. */
  lemma AdoptNext(heard: set<RoundAnnouncement>, current: Option<RoundAnnouncement>, a: RoundAnnouncement)
    requires Adopted(heard, current)
    ensures Adopted(heard + {a}, if current.Some? && !current.value.Precedes(a) then current else Some(a))
  {
    if current.Some? && current.value.Precedes(a) {
      forall b | b in heard + {a} ensures !a.Precedes(b) {
        PrecedenceIsOrder(current.value, a, b);
      }
    }
  }

  /** Robots that heard the same announcements, in any order and however often, hold the same one. */
  lemma AdoptionIsUnique(heard: set<RoundAnnouncement>, a: Option<RoundAnnouncement>, b: Option<RoundAnnouncement>)
    requires KeysDetermine(heard) && Adopted(heard, a) && Adopted(heard, b)
    ensures a == b
  {
    if a.Some? && b.Some? {
      PrecedenceIsOrder(a.value, b.value, b.value);
      assert SameKey(a.value, b.value);
    }
  }
}
