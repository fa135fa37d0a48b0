/**
 The event loop refines the transition system: every state of a round is the
 end of a run whose network holds all queued messages. What holds after every
 run therefore holds throughout every round.
 */
module Refinement {
  import opened Types
  import opened Engine
  import opened Auction
  import opened Transport
  import opened Rounds
  import opened BidBound
  import opened Optimality

  /** The system state matches the round's agents and can deliver everything queued. */
  ghost predicate Matches(r: Round, s: System) {
    r.agents == s.agents && forall p | p in r.queue :: p.message in s.net
  }

  lemma Extend(inst: Instance, run: seq<Step>, step: Step) returns (run': seq<Step>)
    requires inst.Valid() && IsRun(inst, run) && Enabled(Execute(inst, run), step)
    ensures run' == run + [step]
    ensures IsRun(inst, run') && Execute(inst, run') == Apply(inst, Execute(inst, run), step)
  {
    run' := run + [step];
    assert run'[..|run'| - 1] == run;
  }

  /** Delivering the due packets is a sequence of deliveries. */
  lemma {:induction false} DeliverRun(inst: Instance, run: seq<Step>, due: seq<Packet>) returns (run': seq<Step>)
    requires inst.Valid() && IsRun(inst, run)
    requires forall p | p in due :: p.message in Execute(inst, run).net
    ensures run <= run' && IsRun(inst, run')
    ensures Execute(inst, run').agents == DeliverEach(Execute(inst, run).agents, due)
    ensures Execute(inst, run').net == Execute(inst, run).net
    decreases |due|
  {
    if due == [] {
      run' := run;
    } else {
      var p := due[|due| - 1];
      var mid := DeliverRun(inst, run, due[..|due| - 1]);
      assert p.message in Execute(inst, mid).net;
      if p.dest in Execute(inst, mid).agents {
        run' := Extend(inst, mid, Deliver(p.dest, p.message));
      } else {
        run' := mid;
      }
    }
  }

  /** The agents in `order` have ticked, the others have not. */
  ghost predicate Ticked(inst: Instance, order: seq<AgentId>, s: System, s': System)
    requires Typed(inst, s) && Typed(inst, s')
  {
    && s.net <= s'.net
    && (forall a | a in s.agents && a !in order :: s'.agents[a] == s.agents[a])
    && (forall a | a in s.agents && a in order ::
          s'.agents[a] == TickState(a, inst.rows[a], inst.config, s.agents[a]) && Spoken(inst, a, s'))
  }

  /** What the agent broadcasts is in the network. */
  ghost predicate Spoken(inst: Instance, a: AgentId, s: System)
    requires a in s.agents
  {
    match Broadcast(a, inst.config, s.agents[a]) case None => true case Some(m) => m in s.net
  }

  lemma OneMoreTicked(inst: Instance, order: seq<AgentId>, a: AgentId, s: System, mid: System)
    requires Typed(inst, s) && Typed(inst, mid) && a in s.agents && a !in order && Ticked(inst, order, s, mid)
    ensures Typed(inst, ApplyTick(inst, mid, a)) && Ticked(inst, order + [a], s, ApplyTick(inst, mid, a))
  {
    TickStepGrows(inst, mid, a);
    var s' := ApplyTick(inst, mid, a);
    forall b | b in s.agents && b in order + [a]
      ensures s'.agents[b] == TickState(b, inst.rows[b], inst.config, s.agents[b]) && Spoken(inst, b, s')
    {
      if b != a {
        assert b in order && Spoken(inst, b, mid);
      }
    }
  }

  /** Ticking all agents in order is a sequence of ticks. */
  lemma {:induction false} TickRun(inst: Instance, run: seq<Step>, order: seq<AgentId>) returns (run': seq<Step>)
    requires inst.Valid() && IsRun(inst, run) && NoDuplicates(order)
    requires forall a | a in order :: a in inst.rows
    ensures run <= run' && IsRun(inst, run')
    ensures forall a | a in order :: Tick(a) in run'
    ensures Ticked(inst, order, Execute(inst, run), Execute(inst, run'))
    decreases |order|
  {
    if order == [] {
      run' := run;
    } else {
      var rest, a := order[..|order| - 1], order[|order| - 1];
      var mid := TickRun(inst, run, rest);
      assert order == rest + [a];
      OneMoreTicked(inst, rest, a, Execute(inst, run), Execute(inst, mid));
      run' := Extend(inst, mid, Tick(a));
    }
  }

  lemma SameAgents(agents: map<AgentId, AgentState>, agents': map<AgentId, AgentState>)
    requires agents.Keys == agents'.Keys && forall a | a in agents' :: agents[a] == agents'[a]
    ensures agents == agents'
  {
  }

  lemma TickedAgentMatches(trial: Trial, r: Round, now: nat, s: System, s': System, a: AgentId)
    requires trial.Valid() && RoundTyped(trial.inst, r) && Typed(trial.inst, s) && Typed(trial.inst, s')
             && a in s'.agents
    requires s.agents == DeliverEach(r.agents, Due(r, now)) && Ticked(trial.inst, trial.order, s, s')
    ensures a in Iterate(trial, r, now).agents && Iterate(trial, r, now).agents[a] == s'.agents[a]
  {
    assert a in trial.order;
    IterateAgent(trial, r, now, a);
  }

  lemma TickedAgentsMatch(trial: Trial, r: Round, now: nat, s: System, s': System)
    requires trial.Valid() && RoundTyped(trial.inst, r) && Typed(trial.inst, s) && Typed(trial.inst, s')
    requires s.agents == DeliverEach(r.agents, Due(r, now)) && Ticked(trial.inst, trial.order, s, s')
    ensures Iterate(trial, r, now).agents == s'.agents
  {
    forall a | a in s'.agents
      ensures a in Iterate(trial, r, now).agents && Iterate(trial, r, now).agents[a] == s'.agents[a]
    {
      TickedAgentMatches(trial, r, now, s, s', a);
    }
    SameAgents(Iterate(trial, r, now).agents, s'.agents);
  }

  lemma TickedQueueMatches(trial: Trial, r: Round, now: nat, r': Round, s: System, s': System, p: Packet)
    requires trial.Valid() && RoundTyped(trial.inst, r) && r' == Iterate(trial, r, now) && p in r'.queue
    requires forall q | q in r.queue :: q.message in s.net
    requires s.net <= s'.net && r'.agents == s'.agents && forall a | a in s'.agents :: Spoken(trial.inst, a, s')
    ensures p.message in s'.net
  {
    QueueAfter(trial, r, now, p);
    if !(p in r.queue && p.due > now) {
      var a :| a in r'.agents && SentBy(trial.inst, trial.network, a, r'.agents[a], now, p);
      assert Spoken(trial.inst, a, s');
    }
  }

  /** All agents having ticked, the agents and the queue of the iteration are matched. */
  lemma TickedMatches(trial: Trial, r: Round, now: nat, r': Round, s: System, s': System)
    requires trial.Valid() && RoundTyped(trial.inst, r) && r' == Iterate(trial, r, now)
    requires Typed(trial.inst, s) && Typed(trial.inst, s')
    requires s.agents == DeliverEach(r.agents, Due(r, now)) && forall p | p in r.queue :: p.message in s.net
    requires Ticked(trial.inst, trial.order, s, s')
    ensures Matches(r', s')
  {
    TickedAgentsMatch(trial, r, now, s, s');
    forall a | a in s'.agents ensures Spoken(trial.inst, a, s') {
      assert a in trial.order;
    }
    forall p | p in r'.queue ensures p.message in s'.net {
      TickedQueueMatches(trial, r, now, r', s, s', p);
    }
  }

  /** One iteration of the loop extends the run. */
  lemma IterationRefines(trial: Trial, r: Round, now: nat, run: seq<Step>) returns (run': seq<Step>)
    requires trial.Valid() && RoundTyped(trial.inst, r)
    requires IsRun(trial.inst, run) && Matches(r, Execute(trial.inst, run))
    ensures run <= run' && IsRun(trial.inst, run') && Matches(Iterate(trial, r, now), Execute(trial.inst, run'))
    ensures forall a | a in trial.inst.rows :: Tick(a) in run'
  {
    forall p | p in Due(r, now) ensures p.message in Execute(trial.inst, run).net {
      LaterMembers(r, now, p);
    }
    var mid := DeliverRun(trial.inst, run, Due(r, now));
    run' := TickRun(trial.inst, mid, trial.order);
    TickedMatches(trial, r, now, Iterate(trial, r, now), Execute(trial.inst, mid), Execute(trial.inst, run'));
  }

  lemma NextRefines(h: History, k: nat, run: seq<Step>) returns (run': seq<Step>)
    requires IsRun(h.trial.inst, run) && Matches(h.states(k), Execute(h.trial.inst, run))
    ensures IsRun(h.trial.inst, run') && Matches(h.states(k + 1), Execute(h.trial.inst, run'))
    ensures forall a | a in h.trial.inst.rows :: Tick(a) in run'
  {
    assert TypedAt(h, k) && Follows(h, k);
    run' := IterationRefines(h.trial, h.states(k), k, run);
  }

  /** Every state of a round that starts with an empty queue is reached by a run of the transition system. */
  lemma RoundRefines(h: History, k: nat) returns (run: seq<Step>)
    requires h.trial.backlog == []
    ensures IsRun(h.trial.inst, run) && Matches(h.states(k), Execute(h.trial.inst, run))
    ensures k > 0 ==> forall a | a in h.trial.inst.rows :: Tick(a) in run
  {
    run := [];
    for i := 0 to k
      invariant IsRun(h.trial.inst, run) && Matches(h.states(i), Execute(h.trial.inst, run))
      invariant i > 0 ==> forall a | a in h.trial.inst.rows :: Tick(a) in run
    {
      run := NextRefines(h, i, run);
    }
  }

  // ------------------------------------------- consequences for every round

  /** The safety invariants hold throughout every round. */
  lemma RoundInvariant(h: History, k: nat) returns (s: System)
    requires h.trial.backlog == []
    ensures s.agents == h.states(k).agents && Invariant(h.trial.inst, s)
    ensures k > 0 ==> forall a | a in h.trial.inst.rows :: AgentAt(h, k, a).assignment.Some?
  {
    var run := RoundRefines(h, k);
    s := Execute(h.trial.inst, run);
    EveryRunKeepsInvariant(h.trial.inst, run);
    if k > 0 {
      forall a | a in h.trial.inst.rows ensures AgentAt(h, k, a).assignment.Some? {
        TickedAgentsAreAssigned(h.trial.inst, run, a);
      }
    }
  }

  /** With at least as many tasks as agents, no price ever exceeds twice spread + epsilon. */
  lemma RoundCeiling(h: History, k: nat, spread: real, a: AgentId, t: TaskId)
    requires h.trial.backlog == [] && |h.trial.inst.rows| <= |h.trial.inst.tasks|
    requires Spread(h.trial.inst, spread) && spread >= 0.0
    requires a in h.trial.inst.rows && t in TableAt(h, k, a)
    ensures var low := spread + h.trial.inst.config.epsilon; TableAt(h, k, a)[t].price <= low + low
  {
    var s := RoundCeilings(h, k, spread);
    assert s.agents[a] == AgentAt(h, k, a);
    CeilingIsAtMostTwice(h.trial.inst, s, spread);
  }

  lemma RoundCeilings(h: History, k: nat, spread: real) returns (s: System)
    requires h.trial.backlog == [] && |h.trial.inst.rows| <= |h.trial.inst.tasks|
    requires Spread(h.trial.inst, spread) && spread >= 0.0
    ensures s.agents == h.states(k).agents && Invariant(h.trial.inst, s) && Ceiling(h.trial.inst, s, spread)
  {
    var run := RoundRefines(h, k);
    s := Execute(h.trial.inst, run);
    EveryRunKeepsInvariant(h.trial.inst, run);
    EveryRunKeepsCeiling(h.trial.inst, run, spread);
  }

  /** And since no more tasks are bid on than there are agents, an agent's prices stay below n times that. */
  lemma RoundTotal(h: History, k: nat, spread: real, a: AgentId)
    requires h.trial.backlog == [] && |h.trial.inst.rows| <= |h.trial.inst.tasks|
    requires Spread(h.trial.inst, spread) && spread >= 0.0 && a in h.trial.inst.rows
    ensures Worth(TableAt(h, k, a)) <= PriceLimit(h.trial.inst, spread)
  {
    var s := RoundTotals(h, k, spread, a);
    assert TypedAt(h, k);
  }

  lemma RoundTotals(h: History, k: nat, spread: real, a: AgentId) returns (s: System)
    requires h.trial.backlog == [] && |h.trial.inst.rows| <= |h.trial.inst.tasks|
    requires Spread(h.trial.inst, spread) && spread >= 0.0 && a in h.trial.inst.rows
    ensures s.agents == h.states(k).agents && a in s.agents && OwnTotal(s, a) <= PriceLimit(h.trial.inst, spread)
  {
    var run := RoundRefines(h, k);
    s := Execute(h.trial.inst, run);
    RunBoundsTotal(h.trial.inst, run, s, spread, a);
  }
}
