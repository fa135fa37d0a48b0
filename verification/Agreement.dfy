/**
 Rounds over a lossless static topology: how tables spread along its links,
 why all agents agree when the loop stops, and how long propagation takes.
 */
module Agreement {
  import opened Types
  import opened Prices
  import opened Engine
  import opened Auction
  import opened Transport
  import opened Rounds
  import opened Optimality
  import opened Distances
  import Sets

  /** No packet is lost, and the links never change. */
  ghost predicate LosslessStatic(network: Network, topology: Topology) {
    && (forall now: nat :: network.topology(now) == topology)
    && (forall now: nat, a, b :: network.fate(now, a, b).Delayed?)
  }

  /** Links join agents of the round only. */
  ghost predicate Within(inst: Instance, topology: Topology) {
    forall a, b | Edge(topology, a, b) :: a in inst.rows && b in inst.rows
  }

  /** Every agent reaches every other one. */
  ghost predicate Connected(inst: Instance, topology: Topology) {
    forall a, b | a in inst.rows && b in inst.rows :: Reachable(topology, a, b)
  }

  // ------------------------------------------------------- what a link carries

  ghost predicate Carries(queue: seq<Packet>, a: AgentId, b: AgentId, table: Table) {
    exists p :: p in queue && p.dest == b && p.message.sender == a && p.message.entries == table
  }

  /** Along a link the receiver already knows the sender's table, or a packet with it is on its way. */
  ghost predicate LinkInvariant(h: History, k: nat, a: AgentId, b: AgentId)
    requires a in h.trial.inst.rows && b in h.trial.inst.rows
  {
    || AgentAt(h, k, a).dirty
    || Below(TableAt(h, k, a), TableAt(h, k, b))
    || Carries(h.states(k).queue, a, b, TableAt(h, k, a))
  }

  ghost predicate AllLinks(h: History, topology: Topology, k: nat)
  {
    forall a, b | Edge(topology, a, b) && a in h.trial.inst.rows && b in h.trial.inst.rows :: LinkInvariant(h, k, a, b)
  }

  /** On a lossless network a broadcast puts a packet on every link. */
  lemma BroadcastIsCarried(h: History, topology: Topology, k: nat, a: AgentId, b: AgentId)
    requires LosslessStatic(h.trial.network, topology)
    requires Edge(topology, a, b) && a in h.trial.inst.rows
    requires Broadcast(a, h.trial.inst.config, AgentAt(h, k + 1, a)) == Some(PriceTableMessage(a, TableAt(h, k + 1, a)))
    ensures Carries(h.states(k + 1).queue, a, b, TableAt(h, k + 1, a))
  {
    var network := h.trial.network;
    var message := PriceTableMessage(a, TableAt(h, k + 1, a));
    var p := Packet(DueAt(k, network.fate(k, a, b).ticks), b, message);
    LinkSends(network, topology, k, message, b, p);
    assert SentBy(h.trial.inst, network, a, AgentAt(h, k + 1, a), k, p);
    NextQueue(h, k, p);
  }

  lemma LinkSends(network: Network, topology: Topology, now: nat, message: PriceTableMessage, b: AgentId, p: Packet)
    requires LosslessStatic(network, topology) && Edge(topology, message.sender, b)
    requires network.fate(now, message.sender, b).Delayed? ==>
               p == Packet(DueAt(now, network.fate(now, message.sender, b).ticks), b, message)
    ensures b in Neighbours(network, now, message.sender) && IsSent(network.fate, message, b, now, p)
  {
    assert network.topology(now) == topology;
    assert network.fate(now, message.sender, b).Delayed?;
  }

  /** A packet on the link is either delivered in this iteration or still there after it. */
  lemma CarriedPacketArrives(h: History, k: nat, a: AgentId, b: AgentId)
    requires a in h.trial.inst.rows && b in h.trial.inst.rows && a != b
    requires Carries(h.states(k).queue, a, b, TableAt(h, k, a))
    ensures Below(TableAt(h, k, a), TableAt(h, k + 1, b)) || Carries(h.states(k + 1).queue, a, b, TableAt(h, k, a))
  {
    var p :| p in h.states(k).queue && p.dest == b && p.message.sender == a && p.message.entries == TableAt(h, k, a);
    if p.due <= k {
      NextTableCovers(h, k, b, p);
      TableKeys(h, k, a);
      TableKeys(h, k + 1, b);
    } else {
      NextQueue(h, k, p);
    }
  }

  lemma TableKeys(h: History, k: nat, a: AgentId)
    requires a in h.trial.inst.rows
    ensures TableAt(h, k, a).Keys == h.trial.inst.tasks
  {
    assert TypedAt(h, k);
  }

  lemma IterationKeepsLink(h: History, topology: Topology, k: nat, a: AgentId, b: AgentId)
    requires LosslessStatic(h.trial.network, topology)
    requires Edge(topology, a, b) && a in h.trial.inst.rows && b in h.trial.inst.rows
    requires LinkInvariant(h, k, a, b)
    ensures LinkInvariant(h, k + 1, a, b)
  {
    var was, table := TableAt(h, k, a), TableAt(h, k + 1, a);
    NextAgentSpeaks(h, k, a);
    if AgentAt(h, k, a).dirty || table != was {
      BroadcastIsCarried(h, topology, k, a, b);
    } else if Below(was, TableAt(h, k, b)) {
      NextTableGrows(h, k, b);
      BelowIsTransitive(was, TableAt(h, k, b), TableAt(h, k + 1, b));
    } else {
      CarriedPacketArrives(h, k, a, b);
    }
  }

  lemma IterationKeepsLinks(h: History, topology: Topology, k: nat)
    requires LosslessStatic(h.trial.network, topology)
    requires AllLinks(h, topology, k)
    ensures AllLinks(h, topology, k + 1)
  {
    forall a, b | Edge(topology, a, b) && a in h.trial.inst.rows && b in h.trial.inst.rows
      ensures LinkInvariant(h, k + 1, a, b)
    {
      IterationKeepsLink(h, topology, k, a, b);
    }
  }

  lemma InitialLinks(h: History, topology: Topology)
    ensures AllLinks(h, topology, 0)
  {
    forall a, b | Edge(topology, a, b) && a in h.trial.inst.rows && b in h.trial.inst.rows
      ensures LinkInvariant(h, 0, a, b)
    {
      assert AgentAt(h, 0, a) == InitialState(h.trial.inst.tasks);
    }
  }

  lemma AllLinksHold(h: History, topology: Topology, k: nat)
    requires LosslessStatic(h.trial.network, topology)
    ensures AllLinks(h, topology, k)
  {
    InitialLinks(h, topology);
    for i := 0 to k
      invariant AllLinks(h, topology, i)
    {
      IterationKeepsLinks(h, topology, i);
    }
  }

  // ------------------------------------------------------- agreement at the end

  /** After at least one tick no agent is dirty. */
  lemma CleanAfterTick(h: History, k: nat, a: AgentId)
    requires 0 < k && a in h.trial.inst.rows
    ensures !AgentAt(h, k, a).dirty
  {
    NextAgentSpeaks(h, k - 1, a);
  }

  /** With nothing in flight, a link's receiver knows everything its sender does. */
  lemma QuietLinkRises(h: History, topology: Topology, k: nat, a: AgentId, b: AgentId)
    requires 0 < k && h.states(k).queue == []
    requires LosslessStatic(h.trial.network, topology)
    requires Edge(topology, a, b) && a in h.trial.inst.rows && b in h.trial.inst.rows
    ensures Below(TableAt(h, k, a), TableAt(h, k, b))
  {
    AllLinksHold(h, topology, k);
    assert LinkInvariant(h, k, a, b);
    CleanAfterTick(h, k, a);
  }

  /** ... and so does every agent further down a path. */
  lemma {:induction false} QuietTablesRise(h: History, topology: Topology, k: nat, a: AgentId, b: AgentId, n: nat)
    requires 0 < k && h.states(k).queue == []
    requires LosslessStatic(h.trial.network, topology) && Within(h.trial.inst, topology)
    requires a in h.trial.inst.rows && b in h.trial.inst.rows && b in Ball(topology, a, n)
    ensures Below(TableAt(h, k, a), TableAt(h, k, b))
    decreases n
  {
    if n > 0 {
      var x := LastHop(topology, a, b, n);
      if x != b {
        assert Edge(topology, x, b);
        QuietLinkRises(h, topology, k, x, b);
      }
      QuietTablesRise(h, topology, k, a, x, n - 1);
      BelowIsTransitive(TableAt(h, k, a), TableAt(h, k, x), TableAt(h, k, b));
    }
  }

  lemma QuietTablesAgree(h: History, topology: Topology, k: nat, a: AgentId, b: AgentId)
    requires 0 < k && h.states(k).queue == []
    requires LosslessStatic(h.trial.network, topology) && Within(h.trial.inst, topology)
    requires Connected(h.trial.inst, topology) && a in h.trial.inst.rows && b in h.trial.inst.rows
    ensures TableAt(h, k, a) == TableAt(h, k, b)
  {
    assert Reachable(topology, a, b) && Reachable(topology, b, a);
    var n: nat :| b in Ball(topology, a, n);
    var n': nat :| a in Ball(topology, b, n');
    QuietTablesRise(h, topology, k, a, b, n);
    QuietTablesRise(h, topology, k, b, a, n');
    BelowIsAntisymmetric(TableAt(h, k, a), TableAt(h, k, b));
  }

  /** Agents with equal tables, each named by its own, are consistent with the merged table. */
  lemma EqualTablesAreConsistent(inst: Instance, agents: map<AgentId, AgentState>, m: Table)
    requires AgentsTyped(inst, agents) && IsMerged(inst.tasks, agents, m)
    requires forall a, b | a in agents && b in agents :: agents[a].table == agents[b].table
    requires forall a | a in agents :: !Outbid(a, agents[a])
    ensures forall a | a in agents :: agents[a].table == m
    ensures AllAssigned(agents) && Consistent(agents, m) && Sets.Injective(Claims(agents))
  {
    forall a | a in agents ensures agents[a].table == m {
      forall t | t in m ensures agents[a].table[t] == m[t] {
        assert IsTop(agents, t, m[t]);
      }
    }
    ConsistentClaimsAreDistinct(agents, m);
  }

  lemma AgentsAt(h: History, k: nat, a: AgentId)
    requires a in h.trial.inst.rows
    ensures AgentsTyped(h.trial.inst, h.states(k).agents) && h.states(k).agents[a] == AgentAt(h, k, a)
  {
    assert TypedAt(h, k);
  }

  /** Quiet agents are not outbid in the state that ends the loop. */
  lemma QuietAgentsAreNotOutbid(h: History, k: nat, a: AgentId)
    requires 0 < k && Quiet(h.trial.inst.config, h.states(k)) && a in h.trial.inst.rows
    ensures AgentsTyped(h.trial.inst, h.states(k).agents) && !Outbid(a, h.states(k).agents[a])
  {
    AgentsAt(h, k, a);
    QuietCountMeansNotOutbid(h, k - 1, a);
  }

  /**
   On a lossless static connected topology the loop can only stop in agreement:
   all tables are equal, every agent is assigned, and the merged table names
   each agent on its task. This needs no minimum length of the quiet window.
   */
  lemma QuietMeansAgreement(h: History, topology: Topology, k: nat, m: Table)
    requires 0 < k && Quiet(h.trial.inst.config, h.states(k))
    requires LosslessStatic(h.trial.network, topology) && Within(h.trial.inst, topology)
    requires Connected(h.trial.inst, topology)
    requires AgentsTyped(h.trial.inst, h.states(k).agents) && IsMerged(h.trial.inst.tasks, h.states(k).agents, m)
    ensures forall a | a in h.states(k).agents :: h.states(k).agents[a].table == m
    ensures AllAssigned(h.states(k).agents) && Consistent(h.states(k).agents, m)
    ensures Sets.Injective(Claims(h.states(k).agents))
  {
    var agents := h.states(k).agents;
    forall a | a in agents ensures !Outbid(a, agents[a]) {
      QuietAgentsAreNotOutbid(h, k, a);
    }
    forall a, b | a in agents && b in agents ensures agents[a].table == agents[b].table {
      AgentsAt(h, k, a);
      AgentsAt(h, k, b);
      QuietTablesAgree(h, topology, k, a, b);
    }
    EqualTablesAreConsistent(h.trial.inst, agents, m);
  }
}
