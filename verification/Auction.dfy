/**
 The distributed auction round as a transition system: agents tick, and a
 network that may delay, reorder, repeat and lose messages delivers their
 tables to anyone. The invariants below hold in every reachable state.
 */
module Auction {
  import opened Types
  import opened Prices
  import opened Engine

  /** One round: a benefit row per agent over a common task set. */
  datatype Instance = Instance(tasks: set<TaskId>, rows: map<AgentId, Row>, config: RoundConfig) {
    ghost predicate Valid() {
      forall a | a in rows :: a >= 0 && Over(rows[a], tasks)
    }
  }

  /** All agents, and every message that may still be delivered. */
  datatype System = System(agents: map<AgentId, AgentState>, net: set<PriceTableMessage>)

  /** A delivered message stays in the network, so it can arrive again, late, or out of order. */
  datatype Step =
    | Tick(agent: AgentId)
    | Deliver(dest: AgentId, message: PriceTableMessage)
    | Drop(message: PriceTableMessage)

  function Init(inst: Instance): System {
    System(map a | a in inst.rows :: InitialState(inst.tasks), {})
  }

  ghost predicate AgentTyped(inst: Instance, st: AgentState) {
    st.table.Keys == inst.tasks && (st.assignment.Some? ==> st.assignment.value in inst.tasks)
  }

  /** Every agent of the instance has a table and an assignment over its tasks. */
  ghost predicate Typed(inst: Instance, s: System) {
    && inst.Valid()
    && s.agents.Keys == inst.rows.Keys
    && (forall a | a in s.agents :: AgentTyped(inst, s.agents[a]))
    && (forall m | m in s.net :: m.entries.Keys == inst.tasks)
  }

  ghost predicate Enabled(s: System, step: Step) {
    match step
    case Tick(a) => a in s.agents
    case Deliver(dest, message) => dest in s.agents && message in s.net
    case Drop(message) => message in s.net
  }

  /** The agent ticks, and what it broadcasts joins the network. */
  function ApplyTick(inst: Instance, s: System, a: AgentId): System
    requires Typed(inst, s) && a in s.agents
  {
    var next := TickState(a, inst.rows[a], inst.config, s.agents[a]);
    System(s.agents[a := next],
           match Broadcast(a, inst.config, next) case None => s.net case Some(m) => s.net + {m})
  }

  function ApplyDeliver(s: System, dest: AgentId, message: PriceTableMessage): System
    requires dest in s.agents
  {
    s.(agents := s.agents[dest := Handle(dest, s.agents[dest], message)])
  }

  function Apply(inst: Instance, s: System, step: Step): System
    requires Typed(inst, s) && Enabled(s, step)
  {
    match step
    case Tick(a) => ApplyTick(inst, s, a)
    case Deliver(dest, message) => ApplyDeliver(s, dest, message)
    case Drop(message) => s.(net := s.net - {message})
  }

  // ----------------------------------------------------------------- invariants

  /** Nobody's entry at price zero, or a real agent's at a positive price. */
  ghost predicate GoodEntry(inst: Instance, e: PriceEntry) {
    e == INITIAL_ENTRY || (e.bidder in inst.rows && e.price >= inst.config.epsilon)
  }

  /** Provenance: an entry naming bidder b is at most b's own entry for the task. */
  ghost predicate Known(inst: Instance, s: System, t: TaskId, e: PriceEntry)
    requires Typed(inst, s) && t in inst.tasks
  {
    && GoodEntry(inst, e)
    && (e.bidder in s.agents ==> Leq(e, s.agents[e.bidder].table[t]))
  }

  ghost predicate TableKnown(inst: Instance, s: System, table: Table)
    requires Typed(inst, s) && table.Keys == inst.tasks
  {
    forall t {:trigger Known(inst, s, t, table[t])} | t in inst.tasks :: Known(inst, s, t, table[t])
  }

  ghost predicate AllKnown(inst: Instance, s: System)
    requires Typed(inst, s)
  {
    && (forall a {:trigger TableKnown(inst, s, s.agents[a].table)} | a in s.agents ::
         TableKnown(inst, s, s.agents[a].table))
    && (forall m {:trigger TableKnown(inst, s, m.entries)} | m in s.net :: TableKnown(inst, s, m.entries))
  }

  /** One slot: an agent's own table names it on its assigned task at most. */
  ghost predicate OneSlot(a: AgentId, st: AgentState) {
    forall t | t in st.table && st.table[t].bidder == a :: st.assignment == Some(t)
  }

  /** Local slackness: where its own table names it, no other task looks better by more than epsilon. */
  ghost predicate Slack(a: AgentId, row: Row, epsilon: real, table: Table) {
    forall t, u | t in table && u in table && table[t].bidder == a ::
      Net(row, table, t) >= Net(row, table, u) - epsilon
  }

  ghost predicate AgentInvariant(inst: Instance, a: AgentId, st: AgentState)
    requires a in inst.rows
  {
    OneSlot(a, st) && Slack(a, inst.rows[a], inst.config.epsilon, st.table)
  }

  ghost predicate Invariant(inst: Instance, s: System) {
    && Typed(inst, s)
    && AllKnown(inst, s)
    && forall a {:trigger AgentInvariant(inst, a, s.agents[a])} | a in s.agents :: AgentInvariant(inst, a, s.agents[a])
  }

  // ------------------------------------------------------------------ one step

  lemma TickGrows(id: AgentId, row: Row, config: RoundConfig, st: AgentState)
    requires Fits(row, st)
    ensures Fits(row, TickState(id, row, config, st))
    ensures Below(st.table, TickState(id, row, config, st).table)
  {
    BidLeavesSlack(id, row, config, st);
  }

  lemma HandleGrows(id: AgentId, st: AgentState, message: PriceTableMessage)
    ensures Below(st.table, Handle(id, st, message).table)
  {
    JoinIsLeastUpperBound(st.table, message.entries, st.table);
  }

  /** Every table of `s'` is at least the one of `s`. */
  ghost predicate Grows(s: System, s': System) {
    s.agents.Keys == s'.agents.Keys && forall a | a in s.agents :: Below(s.agents[a].table, s'.agents[a].table)
  }

  lemma TickStepGrows(inst: Instance, s: System, a: AgentId)
    requires Typed(inst, s) && a in s.agents
    ensures Typed(inst, ApplyTick(inst, s, a)) && Grows(s, ApplyTick(inst, s, a))
  {
    TickGrows(a, inst.rows[a], inst.config, s.agents[a]);
  }

  lemma DeliverStepGrows(inst: Instance, s: System, dest: AgentId, message: PriceTableMessage)
    requires Typed(inst, s) && dest in s.agents
    ensures Typed(inst, ApplyDeliver(s, dest, message)) && Grows(s, ApplyDeliver(s, dest, message))
  {
    HandleGrows(dest, s.agents[dest], message);
  }

  /** Tables only ever grow, and every step keeps the state well typed. */
  lemma StepGrows(inst: Instance, s: System, step: Step)
    requires Typed(inst, s) && Enabled(s, step)
    ensures Typed(inst, Apply(inst, s, step)) && Grows(s, Apply(inst, s, step))
  {
    match step
    case Tick(a) => TickStepGrows(inst, s, a);
    case Deliver(dest, message) => DeliverStepGrows(inst, s, dest, message);
    case Drop(message) =>
  }

  /** Known entries stay known when tables grow. */
  lemma KnownIsStable(inst: Instance, s: System, s': System, t: TaskId, e: PriceEntry)
    requires Typed(inst, s) && Typed(inst, s') && t in inst.tasks
    requires Grows(s, s') && Known(inst, s, t, e)
    ensures Known(inst, s', t, e)
  {
    if e.bidder in s.agents {
      assert Below(s.agents[e.bidder].table, s'.agents[e.bidder].table);
      assert t in s.agents[e.bidder].table;
    }
  }

  lemma TableKnownIsStable(inst: Instance, s: System, s': System, table: Table)
    requires Typed(inst, s) && Typed(inst, s') && table.Keys == inst.tasks
    requires Grows(s, s') && TableKnown(inst, s, table)
    ensures TableKnown(inst, s', table)
  {
    forall t | t in inst.tasks ensures Known(inst, s', t, table[t]) {
      KnownIsStable(inst, s, s', t, table[t]);
    }
  }

  /** A step that adds only known tables keeps everything known. */
  lemma GrowthKeepsAllKnown(inst: Instance, s: System, s': System)
    requires Typed(inst, s) && Typed(inst, s') && Grows(s, s') && AllKnown(inst, s)
    requires forall a | a in s.agents ::
               s'.agents[a].table == s.agents[a].table || TableKnown(inst, s', s'.agents[a].table)
    requires forall m | m in s'.net :: m in s.net || exists a | a in s.agents :: m.entries == s'.agents[a].table
    ensures AllKnown(inst, s')
  {
    forall a | a in s'.agents ensures TableKnown(inst, s', s'.agents[a].table) {
      if s'.agents[a].table == s.agents[a].table {
        TableKnownIsStable(inst, s, s', s.agents[a].table);
      }
    }
    forall m | m in s'.net ensures TableKnown(inst, s', m.entries) {
      if m in s.net {
        TableKnownIsStable(inst, s, s', m.entries);
      }
    }
  }

  /** The joined table of two known ones is known. */
  lemma JoinKeepsKnown(inst: Instance, s: System, s': System, ours: Table, theirs: Table)
    requires Typed(inst, s) && Typed(inst, s') && Grows(s, s')
    requires ours.Keys == theirs.Keys == inst.tasks
    requires TableKnown(inst, s, ours) && TableKnown(inst, s, theirs)
    ensures TableKnown(inst, s', Join(ours, theirs))
  {
    var table := Join(ours, theirs);
    forall t | t in inst.tasks ensures Known(inst, s', t, table[t]) {
      assert Known(inst, s, t, ours[t]) && Known(inst, s, t, theirs[t]);
      KnownIsStable(inst, s, s', t, table[t]);
    }
  }

  lemma DeliverKeepsKnown(inst: Instance, s: System, dest: AgentId, message: PriceTableMessage)
    requires Invariant(inst, s) && dest in s.agents && message in s.net
    ensures Typed(inst, ApplyDeliver(s, dest, message)) && AllKnown(inst, ApplyDeliver(s, dest, message))
  {
    var s' := ApplyDeliver(s, dest, message);
    DeliverStepGrows(inst, s, dest, message);
    JoinKeepsKnown(inst, s, s', s.agents[dest].table, message.entries);
    GrowthKeepsAllKnown(inst, s, s');
  }

  /** A new bid is known because the bidder's own table holds it. */
  lemma BidIsKnown(inst: Instance, s: System, a: AgentId)
    requires Invariant(inst, s) && a in s.agents
    requires Typed(inst, ApplyTick(inst, s, a)) && Grows(s, ApplyTick(inst, s, a))
    ensures TableKnown(inst, ApplyTick(inst, s, a), ApplyTick(inst, s, a).agents[a].table)
  {
    var s' := ApplyTick(inst, s, a);
    var was, table := s.agents[a].table, s'.agents[a].table;
    BidLeavesSlack(a, inst.rows[a], inst.config, s.agents[a]);
    assert TableKnown(inst, s, was);
    forall t | t in inst.tasks ensures Known(inst, s', t, table[t]) {
      assert Known(inst, s, t, was[t]);
      if table[t] == was[t] {
        KnownIsStable(inst, s, s', t, was[t]);
      }
    }
  }

  lemma TickKeepsKnown(inst: Instance, s: System, a: AgentId)
    requires Invariant(inst, s) && a in s.agents
    ensures Typed(inst, ApplyTick(inst, s, a)) && AllKnown(inst, ApplyTick(inst, s, a))
  {
    TickStepGrows(inst, s, a);
    BidIsKnown(inst, s, a);
    GrowthKeepsAllKnown(inst, s, ApplyTick(inst, s, a));
  }

  /** Slackness survives any growth that leaves the entries naming the agent alone. */
  lemma GrowthKeepsSlack(a: AgentId, row: Row, epsilon: real, table: Table, table': Table)
    requires Below(table, table')
    requires forall t | t in table' && table'[t].bidder == a :: table'[t] == table[t]
    requires Slack(a, row, epsilon, table)
    ensures Slack(a, row, epsilon, table')
  {
    forall t, u | t in table' && u in table' && table'[t].bidder == a
      ensures Net(row, table', t) >= Net(row, table', u) - epsilon
    {
      assert Net(row, table, t) >= Net(row, table, u) - epsilon;
      assert Leq(table[u], table'[u]);
    }
  }

  /** A delivered table never tells an agent anything new about its own bids. */
  lemma DeliverKeepsAgent(inst: Instance, s: System, dest: AgentId, message: PriceTableMessage)
    requires Invariant(inst, s) && dest in s.agents && message in s.net
    ensures AgentInvariant(inst, dest, Handle(dest, s.agents[dest], message))
  {
    var st := s.agents[dest];
    var next := Handle(dest, st, message);
    HandleGrows(dest, st, message);
    assert AgentInvariant(inst, dest, st) && TableKnown(inst, s, message.entries);
    forall t | t in next.table && next.table[t].bidder == dest
      ensures next.table[t] == st.table[t]
    {
      assert Known(inst, s, t, message.entries[t]);
    }
    GrowthKeepsSlack(dest, inst.rows[dest], inst.config.epsilon, st.table, next.table);
  }

  /** A bid happens only when no entry of the agent's table names it; afterwards exactly one does. */
  lemma TickKeepsAgent(inst: Instance, s: System, a: AgentId)
    requires Invariant(inst, s) && a in s.agents
    ensures AgentInvariant(inst, a, TickState(a, inst.rows[a], inst.config, s.agents[a]))
  {
    var st := s.agents[a];
    assert AgentInvariant(inst, a, st);
    if Outbid(a, st) {
      BidLeavesSlack(a, inst.rows[a], inst.config, st);
      forall t | t in st.table ensures st.table[t].bidder != a {
        assert st.table[t].bidder == a ==> st.assignment == Some(t);
      }
    }
  }

  lemma DropKeepsInvariant(inst: Instance, s: System, message: PriceTableMessage)
    requires Invariant(inst, s)
    ensures Invariant(inst, s.(net := s.net - {message}))
  {
    GrowthKeepsAllKnown(inst, s, s.(net := s.net - {message}));
  }

  lemma StepKeepsInvariant(inst: Instance, s: System, step: Step)
    requires Invariant(inst, s) && Enabled(s, step)
    ensures Invariant(inst, Apply(inst, s, step))
  {
    match step
    case Tick(a) =>
      TickKeepsKnown(inst, s, a);
      TickKeepsAgent(inst, s, a);
    case Deliver(dest, message) =>
      DeliverKeepsKnown(inst, s, dest, message);
      DeliverKeepsAgent(inst, s, dest, message);
    case Drop(message) =>
      DropKeepsInvariant(inst, s, message);
  }

  // --------------------------------------------------------------- whole runs

  /** Each step of `run` is enabled when its turn comes. */
  ghost predicate IsRun(inst: Instance, run: seq<Step>)
    requires inst.Valid()
    decreases |run|, 0
  {
    run != [] ==>
      var before := run[..|run| - 1];
      IsRun(inst, before) && Enabled(Execute(inst, before), run[|run| - 1])
  }

  /** The state `run` leads to from the initial state. */
  ghost function Execute(inst: Instance, run: seq<Step>): (s: System)
    requires inst.Valid() && IsRun(inst, run)
    ensures Typed(inst, s)
    decreases |run|, 1
  {
    if run == [] then Init(inst)
    else
      var s, last := Execute(inst, run[..|run| - 1]), run[|run| - 1];
      StepGrows(inst, s, last);
      Apply(inst, s, last)
  }

  /** Main safety result: the invariants hold after every run, whatever the network did. */
  lemma {:induction false} EveryRunKeepsInvariant(inst: Instance, run: seq<Step>)
    requires inst.Valid() && IsRun(inst, run)
    ensures Invariant(inst, Execute(inst, run))
  {
    if run != [] {
      EveryRunKeepsInvariant(inst, run[..|run| - 1]);
      StepKeepsInvariant(inst, Execute(inst, run[..|run| - 1]), run[|run| - 1]);
    }
  }
}
