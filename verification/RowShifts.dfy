/**
 Adding a constant to all benefits of an agent changes nothing about a round:
 bids depend on differences of net values only, so every state of the history is
 the same, and so is the result.
 */
module RowShifts {
  import opened Types
  import opened Engine
  import opened Auction
  import opened Transport
  import opened Rounds
  import opened Harness
  import opened EventLoop
  import opened RoundOffers

  /** `row'` is `row` with every benefit higher by `x`. */
  ghost predicate Shifted(row: Row, row': Row, x: real) {
    row'.order == row.order && forall t | t in row.order :: row'.benefit(t) == row.benefit(t) + x
  }

  /** The same row up to a constant. */
  ghost predicate SameTaste(row: Row, row': Row) {
    exists x :: Shifted(row, row', x)
  }

  /** The same rows up to a constant in each. */
  ghost predicate SameTastes(rows: map<AgentId, Row>, rows': map<AgentId, Row>) {
    rows'.Keys == rows.Keys && forall a | a in rows :: SameTaste(rows[a], rows'[a])
  }

  // ------------------------------------------------------ one agent

  lemma {:induction false} ScanShifts(row: Row, row': Row, x: real, table: Table, k: nat)
    requires Shifted(row, row', x) && 0 < k <= |row.order| && forall j | 0 <= j < k :: row.order[j] in table
    ensures ScanPrefix(row', table, k).best == ScanPrefix(row, table, k).best
    ensures ScanPrefix(row', table, k).second
            == match ScanPrefix(row, table, k).second case None => None case Some(w) => Some(w + x)
  {
    assert row.order[k - 1] in row.order;
    if k > 1 {
      ScanShifts(row, row', x, table, k - 1);
      assert row.order[ScanPrefix(row, table, k - 1).best] in row.order;
    }
  }

  lemma BidShifts(id: AgentId, row: Row, row': Row, config: RoundConfig, st: AgentState)
    requires SameTaste(row, row') && Fits(row, st)
    ensures Fits(row', st) && PlaceBid(id, row', config, st) == PlaceBid(id, row, config, st)
  {
    var x :| Shifted(row, row', x);
    ScanShifts(row, row', x, st.table, |row.order|);
    assert BestTask(row, st.table) in row.order;
    assert Increment(row', st.table, config.epsilon) == Increment(row, st.table, config.epsilon);
  }

  lemma TickShifts(id: AgentId, row: Row, row': Row, config: RoundConfig, st: AgentState)
    requires SameTaste(row, row') && Fits(row, st)
    ensures Fits(row', st) && TickState(id, row', config, st) == TickState(id, row, config, st)
  {
    BidShifts(id, row, row', config, st);
  }

  // ------------------------------------------------------ one round

  /** The same trial, up to a constant in each row. */
  ghost predicate SameTrial(trial: Trial, trial': Trial) {
    && trial'.inst.tasks == trial.inst.tasks && trial'.inst.config == trial.inst.config
    && trial'.order == trial.order && trial'.network == trial.network && trial'.backlog == trial.backlog
    && SameTastes(trial.inst.rows, trial'.inst.rows)
  }

  lemma TypedShifts(trial: Trial, trial': Trial, agents: map<AgentId, AgentState>)
    requires SameTrial(trial, trial') && AgentsTyped(trial.inst, agents)
    ensures AgentsTyped(trial'.inst, agents)
  {
    forall a | a in agents ensures AgentTyped(trial'.inst, agents[a]) {
      assert AgentTyped(trial.inst, agents[a]);
    }
  }

  /** The agent ticks the same in both instances. */
  ghost predicate TicksAlike(inst: Instance, inst': Instance, a: AgentId, st: AgentState) {
    && a in inst.rows && a in inst'.rows && Fits(inst.rows[a], st) && Fits(inst'.rows[a], st)
    && TickState(a, inst'.rows[a], inst'.config, st) == TickState(a, inst.rows[a], inst.config, st)
  }

  lemma TickOneAlike(inst: Instance, inst': Instance, agents: map<AgentId, AgentState>, a: AgentId)
    requires inst.Valid() && inst'.Valid() && AgentsTyped(inst, agents) && AgentsTyped(inst', agents)
    requires a in agents && TicksAlike(inst, inst', a, agents[a])
    ensures TickEach(inst', agents)[a] == TickEach(inst, agents)[a]
  {
  }

  lemma TickEachAlike(inst: Instance, inst': Instance, agents: map<AgentId, AgentState>)
    requires inst.Valid() && inst'.Valid() && AgentsTyped(inst, agents) && AgentsTyped(inst', agents)
    requires forall a | a in agents :: TicksAlike(inst, inst', a, agents[a])
    ensures TickEach(inst', agents) == TickEach(inst, agents)
  {
    forall a | a in agents ensures TickEach(inst', agents)[a] == TickEach(inst, agents)[a] {
      TickOneAlike(inst, inst', agents, a);
    }
    SameAgents(TickEach(inst, agents), TickEach(inst', agents));
  }

  lemma SameAgents(agents: map<AgentId, AgentState>, agents': map<AgentId, AgentState>)
    requires agents'.Keys == agents.Keys && forall a | a in agents :: agents'[a] == agents[a]
    ensures agents' == agents
  {
  }

  lemma TickOneShifts(trial: Trial, trial': Trial, a: AgentId, st: AgentState)
    requires trial.Valid() && trial'.Valid() && SameTrial(trial, trial') && a in trial.inst.rows
             && AgentTyped(trial.inst, st)
    ensures TicksAlike(trial.inst, trial'.inst, a, st)
  {
    TickShifts(a, trial.inst.rows[a], trial'.inst.rows[a], trial.inst.config, st);
  }

  lemma TickEachShifts(trial: Trial, trial': Trial, agents: map<AgentId, AgentState>)
    requires trial.Valid() && trial'.Valid() && SameTrial(trial, trial') && AgentsTyped(trial.inst, agents)
    ensures AgentsTyped(trial'.inst, agents) && TickEach(trial'.inst, agents) == TickEach(trial.inst, agents)
  {
    TypedShifts(trial, trial', agents);
    forall a | a in agents ensures TicksAlike(trial.inst, trial'.inst, a, agents[a]) {
      TickOneShifts(trial, trial', a, agents[a]);
    }
    TickEachAlike(trial.inst, trial'.inst, agents);
  }

  /** What is sent depends on the parameters of the round, not on the rows. */
  lemma {:induction false} BroadcastShifts(inst: Instance, inst': Instance, network: Network, order: seq<AgentId>,
                                           agents: map<AgentId, AgentState>, queue: seq<Packet>, now: nat)
    requires inst'.config == inst.config && forall a | a in order :: a in agents
    ensures BroadcastEach(inst', network, order, agents, queue, now)
            == BroadcastEach(inst, network, order, agents, queue, now)
    ensures CopiesEach(inst', network, order, agents, now) == CopiesEach(inst, network, order, agents, now)
  {
    if order != [] {
      BroadcastShifts(inst, inst', network, order[..|order| - 1], agents, queue, now);
    }
  }

  lemma IterateShifts(trial: Trial, trial': Trial, r: Round, now: nat)
    requires trial.Valid() && trial'.Valid() && SameTrial(trial, trial') && RoundTyped(trial.inst, r)
    ensures RoundTyped(trial'.inst, r) && Iterate(trial', r, now) == Iterate(trial, r, now)
  {
    TickEachShifts(trial, trial', r.agents);
    DeliverEachTyped(trial.inst, r.agents, Due(r, now));
    TickEachShifts(trial, trial', DeliverEach(r.agents, Due(r, now)));
    var agents := AgentsAfter(trial.inst, r, now);
    TickEachTyped(trial.inst, DeliverEach(r.agents, Due(r, now)));
    BroadcastShifts(trial.inst, trial'.inst, trial.network, trial.order, agents, Later(r, now), now);
  }

  // ------------------------------------------------------ the whole history

  lemma NextShifts(h: History, h': History, k: nat)
    requires SameTrial(h.trial, h'.trial) && h'.states(k) == h.states(k)
    ensures h'.states(k + 1) == h.states(k + 1)
  {
    assert TypedAt(h, k) && Follows(h, k) && TypedAt(h', k) && Follows(h', k);
    IterateShifts(h.trial, h'.trial, h.states(k), k);
  }

  lemma {:induction false} HistoryShifts(h: History, h': History, k: nat)
    requires SameTrial(h.trial, h'.trial)
    ensures h'.states(k) == h.states(k)
  {
    if k > 0 {
      HistoryShifts(h, h', k - 1);
      NextShifts(h, h', k - 1);
    }
  }

  lemma CopiesInShifts(h: History, h': History, k: nat)
    requires SameTrial(h.trial, h'.trial)
    ensures CopiesIn(h', k) == CopiesIn(h, k)
  {
    HistoryShifts(h, h', k + 1);
    assert TypedAt(h, k + 1);
    BroadcastShifts(h.trial.inst, h'.trial.inst, h.trial.network, h.trial.order, h.states(k + 1).agents, [], k);
  }

  lemma {:induction false} CopiesShift(h: History, h': History, k: nat)
    requires SameTrial(h.trial, h'.trial)
    ensures CopiesUntil(h', k) == CopiesUntil(h, k)
  {
    if k > 0 {
      CopiesShift(h, h', k - 1);
      CopiesInShifts(h, h', k - 1);
    }
  }

  lemma EndShifts(h: History, h': History, k: nat)
    requires SameTrial(h.trial, h'.trial) && Ends(h, k)
    ensures Ends(h', k)
  {
    forall i: nat | i < k ensures Continues(h', i) {
      assert Continues(h, i);
      HistoryShifts(h, h', i);
      HistoryShifts(h, h', i + 1);
    }
    HistoryShifts(h, h', k);
    HistoryShifts(h, h', k + 1);
  }

  lemma MergedShifts(h: History, h': History, k: nat, prices: Table)
    requires SameTrial(h.trial, h'.trial) && MergedAt(h, k, prices)
    ensures h'.states(k + 1) == h.states(k + 1) && MergedAt(h', k, prices)
  {
    HistoryShifts(h, h', k + 1);
    assert TypedAt(h', k + 1);
  }

  lemma ConsistentEndShifts(h: History, h': History, k: nat, prices: Table)
    requires SameTrial(h.trial, h'.trial) && ConsistentEnd(h, k, prices)
    ensures ConsistentEnd(h', k, prices) && h'.states(k + 1) == h.states(k + 1)
  {
    EndShifts(h, h', k);
    MergedShifts(h, h', k, prices);
  }

  lemma SuccessEnds(h: History, maxTicks: int, result: RoundResult)
    requires EventLoopSuccess(result) in Outcomes(h, maxTicks)
    ensures result.ticks < maxTicks && ConsistentEnd(h, result.ticks, result.prices)
    ensures result.assignment == Assignments(h.states(result.ticks + 1).agents)
  {
    assert ExplainsSuccess(h, maxTicks, result);
  }

  lemma SameEndSameSuccess(h: History, h': History, maxTicks: int, result: RoundResult)
    requires SameTrial(h.trial, h'.trial) && result.ticks < maxTicks && ConsistentEnd(h, result.ticks, result.prices)
    requires result.assignment == Assignments(h.states(result.ticks + 1).agents)
    ensures EventLoopSuccess(result) in Outcomes(h', maxTicks)
  {
    ConsistentEndShifts(h, h', result.ticks, result.prices);
    SuccessIsExplained(h', maxTicks, result.ticks, result);
  }

  /** The round ends as it did, with the same result. */
  lemma SuccessShifts(h: History, h': History, maxTicks: int, result: RoundResult)
    requires SameTrial(h.trial, h'.trial) && EventLoopSuccess(result) in Outcomes(h, maxTicks)
    ensures EventLoopSuccess(result) in Outcomes(h', maxTicks)
  {
    SuccessEnds(h, maxTicks, result);
    SameEndSameSuccess(h, h', maxTicks, result);
  }

  lemma TrialShifts(trial: Trial, trial': Trial, maxTicks: int, result: RoundResult)
    requires trial.Valid() && trial'.Valid() && SameTrial(trial, trial')
    requires EventLoopSuccess(result) in Outcomes(HistoryOf(trial), maxTicks)
    ensures EventLoopSuccess(result) in Outcomes(HistoryOf(trial'), maxTicks)
    ensures CopiesUntil(HistoryOf(trial'), result.ticks + 1) == CopiesUntil(HistoryOf(trial), result.ticks + 1)
  {
    SuccessShifts(HistoryOf(trial), HistoryOf(trial'), maxTicks, result);
    CopiesShift(HistoryOf(trial), HistoryOf(trial'), result.ticks + 1);
  }

  /** What a round may return, it may return as well with other rows of the same taste. */
  lemma ReturnsShift(trial: Trial, trial': Trial, sent: nat, maxTicks: int, result: RoundResult)
    requires Returns(trial, sent, maxTicks, result) && SameTrial(trial, trial') && trial'.Valid()
    ensures Returns(trial', sent, maxTicks, result)
  {
    TrialShifts(trial, trial', maxTicks, result);
  }

  /** So the auctions on both inputs have the same results. */
  lemma AuctionsShift(order: seq<AgentId>, rows: map<AgentId, Row>, rows': map<AgentId, Row>, tasks: set<TaskId>,
                      config: RoundConfig, result: RoundResult)
    requires IsInput(order, rows') && Accepts(rows', tasks)
    requires SameTastes(rows, rows')
    requires Auctioned(order, rows, tasks, config, result)
    ensures Auctioned(order, rows', tasks, config, result)
  {
    var network: Network, sent: nat, maxTicks: int :|
      Returns(TrialOf(tasks, rows, config, order, network, []), sent, maxTicks, result);
    var trial' := TrialOf(tasks, rows', config, order, network, []);
    AcceptedTrialIsValid(trial');
    ReturnsShift(TrialOf(tasks, rows, config, order, network, []), trial', sent, maxTicks, result);
    ReturnedIsAuctioned(trial', sent, maxTicks, result);
  }
}
