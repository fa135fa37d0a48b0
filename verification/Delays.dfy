/**
 When packets arrive: exactly after their delay. So nothing an agent bids is
 known anywhere else before its delay has passed, however it travels.
 */
module Delays {
  import opened Types
  import opened Prices
  import opened Engine
  import opened Transport
  import opened Rounds
  import opened Agreement
  import opened Propagation
  import opened Termination

  /**
   In iteration k agent `a` broadcasts this message to `b`, and the packet takes `delay`
   ticks longer than it must.
   */
  ghost predicate Travels(h: History, k: nat, a: AgentId, b: AgentId, delay: int, message: PriceTableMessage) {
    && a in h.trial.inst.rows && !Terminated(h.trial.inst.config, AgentAt(h, k + 1, a))
    && message == PriceTableMessage(a, TableAt(h, k + 1, a))
    && b in Neighbours(h.trial.network, k, a) && h.trial.network.fate(k, a, b) == Delayed(delay)
  }

  /** The iteration in which a packet sent in iteration k is taken in. */
  function Arrival(k: nat, delay: int): nat {
    if delay >= 0 then k + 1 + delay else k + 1
  }

  /** `x` was sent in iteration k, before iteration j, and is due in iteration `x.due`. */
  ghost predicate SentBefore(h: History, j: nat, x: Packet) {
    exists k: nat, a, delay :: k < j && Travels(h, k, a, x.dest, delay, x.message) && x.due == Arrival(k, delay)
  }

  lemma SentIsTravelling(h: History, k: nat, x: Packet)
    ensures (exists a :: a in h.trial.inst.rows
                         && SentBy(h.trial.inst, h.trial.network, a, AgentAt(h, k + 1, a), k, x))
            <==> exists a, delay :: Travels(h, k, a, x.dest, delay, x.message) && x.due == Arrival(k, delay)
  {
    if a :| a in h.trial.inst.rows && SentBy(h.trial.inst, h.trial.network, a, AgentAt(h, k + 1, a), k, x) {
      var delay := h.trial.network.fate(k, a, x.dest).ticks;
      assert Travels(h, k, a, x.dest, delay, x.message);
    }
    if a, delay :| Travels(h, k, a, x.dest, delay, x.message) && x.due == Arrival(k, delay) {
      assert SentBy(h.trial.inst, h.trial.network, a, AgentAt(h, k + 1, a), k, x);
    }
  }

  /** What is in flight before iteration j: sent earlier, and not due before j. */
  lemma {:induction false} InFlight(h: History, j: nat, x: Packet)
    requires h.trial.backlog == []
    ensures x in h.states(j).queue <==> SentBefore(h, j, x) && x.due >= j
  {
    if j > 0 {
      InFlight(h, j - 1, x);
      NextQueue(h, j - 1, x);
      SentIsTravelling(h, j - 1, x);
    }
  }

  /**
   What is delivered in iteration j is exactly what was sent in some iteration k
   with a delay of j - k - 1: neither earlier nor later.
   */
  lemma DeliveredOnTime(h: History, j: nat, x: Packet)
    requires h.trial.backlog == []
    ensures x in Due(h.states(j), j)
            <==> x.due == j
                 && exists k: nat, a, delay :: Travels(h, k, a, x.dest, delay, x.message) && j == Arrival(k, delay)
  {
    assert TypedAt(h, j);
    InFlight(h, j, x);
    LaterMembers(h.states(j), j, x);
  }

  // ------------------------------------------------------ nothing travels faster

  /** Every packet takes at least `delay` ticks longer than it must. */
  ghost predicate DelaysAtLeast(network: Network, delay: nat) {
    forall now: nat, a, b :: network.fate(now, a, b).Delayed? ==> network.fate(now, a, b).ticks >= delay
  }

  /** What delivery changes in a table came with a packet that was due. */
  lemma NewsCameWithPacket(h: History, k: nat, b: AgentId, t: TaskId) returns (p: Packet)
    requires b in h.trial.inst.rows && t in h.trial.inst.tasks
    requires t in TableAt(h, k, b) && t in Delivered(h, k, b).table
    requires Delivered(h, k, b).table[t] != TableAt(h, k, b)[t]
    ensures p in Due(h.states(k), k) && p.dest == b && p.message.sender != b
    ensures HasEntry(p.message.entries, t, Delivered(h, k, b).table[t])
  {
    assert TypedAt(h, k);
    var agents, due := h.states(k).agents, Due(h.states(k), k);
    var inbox := Inbox(due, b);
    var foreign := Foreign(b, inbox);
    DeliverEachByAgent(agents, due, b);
    HandleAllJoins(b, agents[b], inbox);
    JoinAllEntries(TableAt(h, k, b), foreign, t);
    var i :| 0 <= i < |foreign| && HasEntry(foreign[i], t, Delivered(h, k, b).table[t]);
    ForeignMembers(b, inbox, foreign[i]);
    var m :| m in inbox && m.sender != b && m.entries == foreign[i];
    InboxMembers(due, b, m);
    p :| p in due && p.dest == b && p.message == m;
  }

  /** A tick changes no entry but to name the agent itself. */
  lemma ForeignEntryWasDelivered(h: History, k: nat, b: AgentId, t: TaskId)
    requires b in h.trial.inst.rows && t in h.trial.inst.tasks
    ensures t in TableAt(h, k, b) && t in TableAt(h, k + 1, b) && t in Delivered(h, k, b).table
    ensures TableAt(h, k + 1, b)[t].bidder != b ==> TableAt(h, k + 1, b)[t] == Delivered(h, k, b).table[t]
  {
    NextAgent(h, k, b);
    TableKeys(h, k, b);
    BidLeavesSlack(b, h.trial.inst.rows[b], h.trial.inst.config, Delivered(h, k, b));
  }

  /** What a packet says its sender knew at least 1 + delay iterations earlier. */
  lemma PacketIsOld(h: History, k: nat, delay: nat, p: Packet) returns (i: nat)
    requires h.trial.backlog == [] && DelaysAtLeast(h.trial.network, delay) && p in Due(h.states(k), k)
    ensures i + 1 + delay <= k && p.message.sender in h.trial.inst.rows
    ensures p.message.entries == TableAt(h, i + 1, p.message.sender)
  {
    DeliveredOnTime(h, k, p);
    var a, d;
    i, a, d :| Travels(h, i, a, p.dest, d, p.message) && k == Arrival(i, d);
    assert h.trial.network.fate(i, a, p.dest).ticks >= delay;
  }

  /**
   Nothing an agent bids reaches anyone before its delay has passed: an entry that
   names `a` is in another agent's table only if `a` itself had it, or one above
   it, 1 + delay iterations earlier.
   */
  lemma {:induction false} SpeedLimit(h: History, k: nat, a: AgentId, b: AgentId, t: TaskId, delay: nat)
    requires h.trial.backlog == [] && DelaysAtLeast(h.trial.network, delay)
    requires a in h.trial.inst.rows && b in h.trial.inst.rows && a != b && t in TableAt(h, k, b)
    requires TableAt(h, k, b)[t].bidder == a
    ensures k >= 1 + delay && t in TableAt(h, k - 1 - delay, a)
    ensures Leq(TableAt(h, k, b)[t], TableAt(h, k - 1 - delay, a)[t])
    decreases k
  {
    TableKeys(h, k, b);
    var e := TableAt(h, k, b)[t];
    if k > 0 {
      ForeignEntryWasDelivered(h, k - 1, b, t);
      if e == TableAt(h, k - 1, b)[t] {
        SpeedLimit(h, k - 1, a, b, t, delay);
        KnownLonger(h, k - 2 - delay, k - 1 - delay, a, t, e);
      } else {
        var p := NewsCameWithPacket(h, k - 1, b, t);
        var i := PacketIsOld(h, k - 1, delay, p);
        var c := p.message.sender;
        if c == a {
          KnownLonger(h, i + 1, k - 1 - delay, a, t, e);
        } else {
          SpeedLimit(h, i + 1, a, c, t, delay);
          KnownLonger(h, i - delay, k - 1 - delay, a, t, e);
        }
      }
    }
  }

  lemma KnownLonger(h: History, j: nat, k: nat, a: AgentId, t: TaskId, e: PriceEntry)
    requires j <= k && a in h.trial.inst.rows && t in TableAt(h, j, a) && Leq(e, TableAt(h, j, a)[t])
    ensures t in TableAt(h, k, a) && Leq(e, TableAt(h, k, a)[t])
  {
    TablesGrow(h, j, k, a);
  }
}
