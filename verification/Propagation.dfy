/**
 How fast prices spread over a lossless static topology with bounded delays,
 and what the suggested quiescence window is worth.
 */
module Propagation {
  import opened Types
  import opened Prices
  import opened Engine
  import opened Auction
  import opened Transport
  import opened Rounds
  import opened Agreement
  import opened Distances
  import opened Optimality

  /** No packet takes more than `d` extra ticks. */
  ghost predicate DelaysAtMost(network: Network, d: nat) {
    forall now: nat, a, b :: network.fate(now, a, b).Delayed? ==> network.fate(now, a, b).ticks <= d
  }

  ghost predicate DueSoon(h: Round, k: nat, d: nat) {
    forall p | p in h.queue :: p.due <= k + d
  }

  lemma SentIsDueSoon(trial: Trial, a: AgentId, st: AgentState, now: nat, p: Packet, d: nat)
    requires DelaysAtMost(trial.network, d) && SentBy(trial.inst, trial.network, a, st, now, p)
    ensures p.due <= now + 1 + d
  {
    assert trial.network.fate(now, a, p.dest).ticks <= d;
  }

  lemma IterationKeepsDueSoon(h: History, k: nat, d: nat)
    requires DelaysAtMost(h.trial.network, d) && DueSoon(h.states(k), k, d)
    ensures DueSoon(h.states(k + 1), k + 1, d)
  {
    forall p | p in h.states(k + 1).queue ensures p.due <= k + 1 + d {
      NextQueue(h, k, p);
      if !(p in h.states(k).queue && p.due > k) {
        var a :| a in h.trial.inst.rows && SentBy(h.trial.inst, h.trial.network, a, AgentAt(h, k + 1, a), k, p);
        SentIsDueSoon(h.trial, a, AgentAt(h, k + 1, a), k, p, d);
      }
    }
  }

  lemma QueueIsDueSoon(h: History, k: nat, d: nat)
    requires DelaysAtMost(h.trial.network, d) && h.trial.backlog == []
    ensures DueSoon(h.states(k), k, d)
  {
    for i := 0 to k
      invariant DueSoon(h.states(i), i, d)
    {
      IterationKeepsDueSoon(h, i, d);
    }
  }

  /** Tables only grow along a history. */
  lemma {:induction false} TablesGrow(h: History, j: nat, k: nat, a: AgentId)
    requires j <= k && a in h.trial.inst.rows
    ensures Below(TableAt(h, j, a), TableAt(h, k, a))
    decreases k - j
  {
    if j < k {
      NextTableGrows(h, j, a);
      TablesGrow(h, j + 1, k, a);
      BelowIsTransitive(TableAt(h, j, a), TableAt(h, j + 1, a), TableAt(h, k, a));
    }
  }

  /** A packet is still queued until the tick it is due. */
  lemma PacketWaits(h: History, k: nat, j: nat, p: Packet)
    requires k <= j && (j == k || j <= p.due) && p in h.states(k).queue
    ensures p in h.states(j).queue
  {
    for i := k to j
      invariant p in h.states(i).queue
    {
      NextQueue(h, i, p);
    }
  }

  /** A packet in the queue has been taken in once the tick it is due has passed. */
  lemma PacketArrives(h: History, k: nat, end: nat, p: Packet)
    requires k < end && p.due < end
    requires p in h.states(k).queue && p.dest in h.trial.inst.rows && p.message.sender != p.dest
    ensures BelowWhereKnown(p.message.entries, TableAt(h, end, p.dest))
  {
    var j: nat := if p.due <= k then k else p.due;
    PacketWaits(h, k, j, p);
    NextTableCovers(h, j, p.dest, p);
    TablesGrow(h, j + 1, end, p.dest);
    BelowFurther(p.message.entries, TableAt(h, j + 1, p.dest), TableAt(h, end, p.dest));
  }

  lemma BelowFurther(entries: Table, table: Table, table': Table)
    requires BelowWhereKnown(entries, table) && Below(table, table')
    ensures BelowWhereKnown(entries, table')
  {
    forall t | t in entries && t in table' ensures Leq(entries[t], table'[t]) {
      assert Leq(entries[t], table[t]) && Leq(table[t], table'[t]);
    }
  }

  /** Across one link a table travels within 1 + d ticks, whether or not its owner still speaks. */
  lemma OneHop(h: History, topology: Topology, k: nat, end: nat, d: nat, a: AgentId, b: AgentId)
    requires 0 < k && k + 1 + d <= end && h.trial.backlog == []
    requires LosslessStatic(h.trial.network, topology) && DelaysAtMost(h.trial.network, d)
    requires Edge(topology, a, b) && a in h.trial.inst.rows && b in h.trial.inst.rows
    ensures Below(TableAt(h, k, a), TableAt(h, end, b))
  {
    AllLinksHold(h, topology, k);
    assert LinkInvariant(h, k, a, b);
    CleanAfterTick(h, k, a);
    if Below(TableAt(h, k, a), TableAt(h, k, b)) {
      TablesGrow(h, k, end, b);
      BelowIsTransitive(TableAt(h, k, a), TableAt(h, k, b), TableAt(h, end, b));
    } else {
      CarriedTableArrives(h, k, end, d, a, b);
    }
  }

  lemma CarriedTableArrives(h: History, k: nat, end: nat, d: nat, a: AgentId, b: AgentId)
    requires k + 1 + d <= end && h.trial.backlog == [] && DelaysAtMost(h.trial.network, d)
    requires a in h.trial.inst.rows && b in h.trial.inst.rows && a != b
    requires Carries(h.states(k).queue, a, b, TableAt(h, k, a))
    ensures Below(TableAt(h, k, a), TableAt(h, end, b))
  {
    var table := TableAt(h, k, a);
    var p :| p in h.states(k).queue && p.dest == b && p.message.sender == a && p.message.entries == table;
    QueueIsDueSoon(h, k, d);
    PacketArrives(h, k, end, p);
    TableKeys(h, k, a);
    TableKeys(h, end, b);
  }

  /** n hops of 1 + d ticks each. */
  function Span(n: nat, d: nat): nat {
    if n == 0 then 0 else Span(n - 1, d) + 1 + d
  }

  lemma {:induction false} SpanIsProduct(n: nat, d: nat)
    ensures Span(n, d) == n * (1 + d)
  {
    if n > 0 {
      SpanIsProduct(n - 1, d);
    }
  }

  /** Within n hops, that is n (1 + d) ticks, everyone knows at least what an agent knew. */
  lemma {:induction false} TablesPropagate(h: History, topology: Topology, k: nat, end: nat, d: nat,
                                           a: AgentId, b: AgentId, n: nat)
    requires 0 < k && k + Span(n, d) <= end && h.trial.backlog == []
    requires LosslessStatic(h.trial.network, topology) && DelaysAtMost(h.trial.network, d)
             && Within(h.trial.inst, topology)
    requires a in h.trial.inst.rows && b in h.trial.inst.rows && b in Ball(topology, a, n)
    ensures Below(TableAt(h, k, a), TableAt(h, end, b))
    decreases n
  {
    if n == 0 {
      TablesGrow(h, k, end, a);
    } else {
      var x := LastHop(topology, a, b, n);
      var j: nat := end - 1 - d;
      TablesPropagate(h, topology, k, j, d, a, x, n - 1);
      if x == b {
        TablesGrow(h, j, end, b);
      } else {
        OneHop(h, topology, j, end, d, x, b);
      }
      BelowIsTransitive(TableAt(h, k, a), TableAt(h, j, x), TableAt(h, end, b));
    }
  }

  // ------------------------------------------------------- the quiet window

  /** The window suggested for a lossless network, from its diameter and largest delay. */
  function SuggestedQuiescence(diameter: nat, maxDelay: nat): nat {
    diameter * (1 + maxDelay) + 1
  }

  /** Every agent is within `n` hops of every other one. */
  ghost predicate WithinHops(inst: Instance, topology: Topology, n: nat) {
    forall a, b | a in inst.rows && b in inst.rows :: b in Ball(topology, a, n)
  }

  /** The diameter of a topology over the round's agents bounds the hops between them. */
  lemma DiameterBoundsHops(inst: Instance, topology: Topology, d: nat)
    requires topology.Keys == inst.rows.Keys && IsDiameter(topology, d)
    ensures WithinHops(inst, topology, d)
  {
    forall a, b | a in inst.rows && b in inst.rows ensures b in Ball(topology, a, d) {
      assert Spans(topology, a, d);
    }
  }

  /** A positive quiet count grew by one in the last tick, which changed nothing. */
  lemma QuietTickChangesNothing(h: History, k: nat, a: AgentId)
    requires a in h.trial.inst.rows && AgentAt(h, k + 1, a).quiescentTicks > 0
    ensures TableAt(h, k + 1, a) == TableAt(h, k, a)
    ensures AgentAt(h, k, a).quiescentTicks == AgentAt(h, k + 1, a).quiescentTicks - 1
  {
    NextAgentSpeaks(h, k, a);
    NextQuietCount(h, k, a);
  }

  /** Each tick either resets the quiet count or adds one to it. */
  lemma NextQuietCount(h: History, k: nat, a: AgentId)
    requires a in h.trial.inst.rows
    ensures AgentAt(h, k + 1, a).quiescentTicks == 0
            || AgentAt(h, k + 1, a).quiescentTicks == AgentAt(h, k, a).quiescentTicks + 1
  {
    assert TypedAt(h, k) && Follows(h, k);
    IterateAgent(h.trial, h.states(k), k, a);
    DeliveryMarksChanges(h.states(k).agents, Due(h.states(k), k), a);
  }

  /** Over a quiet stretch the table stood still, and the stretch began after the first tick. */
  lemma {:induction false} QuietStretch(h: History, j: nat, k: nat, a: AgentId)
    requires j <= k && a in h.trial.inst.rows && AgentAt(h, k, a).quiescentTicks > k - j
    ensures 0 < j && TableAt(h, j, a) == TableAt(h, k, a)
    decreases k - j
  {
    if k > 0 {
      QuietTickChangesNothing(h, k - 1, a);
      if j < k {
        QuietStretch(h, j, k - 1, a);
      }
    }
  }

  /** An upper bound that one agent attains is the merged table. */
  lemma DominatingTableIsMerged(inst: Instance, agents: map<AgentId, AgentState>, b: AgentId)
    requires AgentsTyped(inst, agents) && b in agents
    requires forall a | a in agents :: Below(agents[a].table, agents[b].table)
    ensures IsMerged(inst.tasks, agents, agents[b].table)
  {
    forall t | t in inst.tasks ensures IsTop(agents, t, agents[b].table[t]) {
      forall a | a in agents ensures Leq(agents[a].table[t], agents[b].table[t]) {
        assert Below(agents[a].table, agents[b].table);
      }
    }
  }

  /**
   The suggested window outlasts one full propagation: when an agent counts
   itself terminated, its table is the merged table of diameter * (1 + d)
   ticks before. Nothing anyone knew then has escaped it.
   */
  lemma WindowOutlastsPropagation(h: History, topology: Topology, j: nat, k: nat, d: nat, n: nat, b: AgentId)
    requires j + Span(n, d) == k && h.trial.backlog == [] && b in h.trial.inst.rows
    requires LosslessStatic(h.trial.network, topology) && DelaysAtMost(h.trial.network, d)
    requires Within(h.trial.inst, topology) && WithinHops(h.trial.inst, topology, n)
    requires h.trial.inst.config.quiescenceRounds >= SuggestedQuiescence(n, d)
    requires Terminated(h.trial.inst.config, AgentAt(h, k, b))
    ensures AgentsTyped(h.trial.inst, h.states(j).agents)
    ensures IsMerged(h.trial.inst.tasks, h.states(j).agents, TableAt(h, k, b))
  {
    SpanIsProduct(n, d);
    QuietStretch(h, j, k, b);
    var agents := h.states(j).agents;
    AgentsAt(h, j, b);
    forall a | a in agents ensures Below(agents[a].table, agents[b].table) {
      AgentsAt(h, j, a);
      assert b in Ball(topology, a, n);
      TablesPropagate(h, topology, j, k, d, a, b, n);
    }
    DominatingTableIsMerged(h.trial.inst, agents, b);
  }
}
