/**
 One auction round over a simulated transport, as the sequence of states after
 each iteration of the event loop: deliver what is due, tick every agent, send.
 */
module Rounds {
  import opened Types
  import opened Prices
  import opened Engine
  import opened Auction
  import opened Transport

  /** Everything that determines a round: the order is the agents' dictionary order. */
  datatype Trial = Trial(inst: Instance, order: seq<AgentId>, network: Network, backlog: seq<Packet>) {
    ghost predicate Valid() {
      && inst.Valid()
      && NoDuplicates(order)
      && (forall a | a in order :: a in inst.rows)
      && (forall a | a in inst.rows :: a in order)
      && Sorted(backlog)
    }
  }

  datatype Round = Round(agents: map<AgentId, AgentState>, queue: seq<Packet>)

  ghost predicate AgentsTyped(inst: Instance, agents: map<AgentId, AgentState>) {
    agents.Keys == inst.rows.Keys && forall a | a in agents :: AgentTyped(inst, agents[a])
  }

  ghost predicate RoundTyped(inst: Instance, h: Round) {
    AgentsTyped(inst, h.agents) && Sorted(h.queue)
  }

  /** Hand each packet to its destination, in order. */
  function DeliverEach(agents: map<AgentId, AgentState>, due: seq<Packet>): map<AgentId, AgentState> {
    if due == [] then agents
    else
      var before, p := DeliverEach(agents, due[..|due| - 1]), due[|due| - 1];
      if p.dest in before then before[p.dest := Handle(p.dest, before[p.dest], p.message)] else before
  }

  function TickEach(inst: Instance, agents: map<AgentId, AgentState>): map<AgentId, AgentState>
    requires inst.Valid() && AgentsTyped(inst, agents)
  {
    map a | a in agents :: TickState(a, inst.rows[a], inst.config, agents[a])
  }

  /** The queue after these agents, just ticked, have broadcast. */
  function BroadcastEach(inst: Instance, network: Network, order: seq<AgentId>, agents: map<AgentId, AgentState>,
                         queue: seq<Packet>, now: nat): seq<Packet>
    requires forall a | a in order :: a in agents
  {
    if order == [] then queue
    else
      var rest, a := order[..|order| - 1], order[|order| - 1];
      var before := BroadcastEach(inst, network, rest, agents, queue, now);
      match Broadcast(a, inst.config, agents[a])
      case None => before
      case Some(m) => Send(network, before, m, now)
  }

  /** How many copies these agents, just ticked, send: one per neighbour of each that has something to say. */
  function CopiesEach(inst: Instance, network: Network, order: seq<AgentId>, agents: map<AgentId, AgentState>,
                      now: nat): nat
    requires forall a | a in order :: a in agents
  {
    if order == [] then 0
    else
      var rest, a := order[..|order| - 1], order[|order| - 1];
      CopiesEach(inst, network, rest, agents, now) + CopiesOf(inst, network, a, agents[a], now)
  }

  function CopiesOf(inst: Instance, network: Network, a: AgentId, st: AgentState, now: nat): nat {
    match Broadcast(a, inst.config, st)
    case None => 0
    case Some(m) => |Neighbours(network, now, m.sender)|
  }

  lemma {:induction false} DeliverEachTyped(inst: Instance, agents: map<AgentId, AgentState>, due: seq<Packet>)
    requires AgentsTyped(inst, agents)
    ensures AgentsTyped(inst, DeliverEach(agents, due))
  {
    if due != [] {
      DeliverEachTyped(inst, agents, due[..|due| - 1]);
    }
  }

  lemma TickEachTyped(inst: Instance, agents: map<AgentId, AgentState>)
    requires inst.Valid() && AgentsTyped(inst, agents)
    ensures AgentsTyped(inst, TickEach(inst, agents))
  {
    forall a | a in agents ensures AgentTyped(inst, TickEach(inst, agents)[a]) {
      TickGrows(a, inst.rows[a], inst.config, agents[a]);
    }
  }

  lemma {:induction false} BroadcastEachSorted(inst: Instance, network: Network, order: seq<AgentId>,
                                               agents: map<AgentId, AgentState>, queue: seq<Packet>, now: nat)
    requires forall a | a in order :: a in agents
    requires Sorted(queue)
    ensures Sorted(BroadcastEach(inst, network, order, agents, queue, now))
  {
    if order != [] {
      var rest, a := order[..|order| - 1], order[|order| - 1];
      BroadcastEachSorted(inst, network, rest, agents, queue, now);
      match Broadcast(a, inst.config, agents[a])
      case None =>
      case Some(m) =>
        var before := BroadcastEach(inst, network, rest, agents, queue, now);
        EnqueueKeepsSorted(network.fate, before, m, Neighbours(network, now, m.sender), now);
    }
  }

  function Due(h: Round, now: nat): seq<Packet> {
    h.queue[..DueCount(h.queue, now)]
  }

  function Later(h: Round, now: nat): seq<Packet> {
    h.queue[DueCount(h.queue, now)..]
  }

  /** The agents after the deliveries and ticks of one iteration. */
  function AgentsAfter(inst: Instance, h: Round, now: nat): map<AgentId, AgentState>
    requires inst.Valid() && AgentsTyped(inst, h.agents)
  {
    DeliverEachTyped(inst, h.agents, Due(h, now));
    TickEach(inst, DeliverEach(h.agents, Due(h, now)))
  }

  /** One iteration of the event loop. */
  function Iterate(trial: Trial, h: Round, now: nat): (h': Round)
    requires trial.Valid() && RoundTyped(trial.inst, h)
    ensures RoundTyped(trial.inst, h')
  {
    var agents := AgentsAfter(trial.inst, h, now);
    DeliverEachTyped(trial.inst, h.agents, Due(h, now));
    TickEachTyped(trial.inst, DeliverEach(h.agents, Due(h, now)));
    BroadcastEachSorted(trial.inst, trial.network, trial.order, agents, Later(h, now), now);
    Round(agents, BroadcastEach(trial.inst, trial.network, trial.order, agents, Later(h, now), now))
  }

  /**
   The states of a round: `states(k)` is the state before iteration k, that is,
   after the ticks 0 to k - 1. The loop stops in the first quiet state; the
   history says how it would go on.
   */
  datatype RawHistory = History(trial: Trial, states: nat -> Round)

  ghost predicate IsHistory(h: RawHistory) {
    && h.trial.Valid()
    && h.states(0) == Round(Init(h.trial.inst).agents, h.trial.backlog)
    && (forall k: nat :: TypedAt(h, k) && Follows(h, k))
  }

  ghost predicate TypedAt(h: RawHistory, k: nat) {
    RoundTyped(h.trial.inst, h.states(k))
  }

  ghost predicate Follows(h: RawHistory, k: nat)
    requires h.trial.Valid() && TypedAt(h, k)
  {
    h.states(k + 1) == Iterate(h.trial, h.states(k), k)
  }

  /** The state before iteration k. */
  ghost function StateAt(trial: Trial, k: nat): (r: Round)
    requires trial.Valid()
    ensures RoundTyped(trial.inst, r)
  {
    if k == 0 then Round(Init(trial.inst).agents, trial.backlog)
    else Iterate(trial, StateAt(trial, k - 1), k - 1)
  }

  lemma StateFollows(trial: Trial, k: nat)
    requires trial.Valid()
    ensures RoundTyped(trial.inst, StateAt(trial, k)) && StateAt(trial, k + 1) == Iterate(trial, StateAt(trial, k), k)
  {
  }

  /** A trial has exactly one history. */
  ghost function HistoryOf(trial: Trial): (h: RawHistory)
    requires trial.Valid()
    ensures h.trial == trial && IsHistory(h)
  {
    var h := History(trial, (k: nat) => if trial.Valid() then StateAt(trial, k) else Round(map[], []));
    assert forall k: nat :: TypedAt(h, k) && Follows(h, k) by {
      forall k: nat ensures TypedAt(h, k) && Follows(h, k) {
        StateFollows(trial, k);
      }
    }
    h
  }

  /** A trial without agents. */
  ghost function EmptyTrial(): Trial {
    Trial(Instance({}, map[], RoundConfig(1.0, 1)), [], Network(now => map[], (now, a, b) => Lost), [])
  }

  type History = h: RawHistory | IsHistory(h) ghost witness HistoryOf(EmptyTrial())

  /** Agent `a` before iteration k. */
  ghost function AgentAt(h: History, k: nat, a: AgentId): AgentState
    requires a in h.trial.inst.rows
  {
    assert TypedAt(h, k);
    h.states(k).agents[a]
  }

  ghost function TableAt(h: History, k: nat, a: AgentId): Table
    requires a in h.trial.inst.rows
  {
    AgentAt(h, k, a).table
  }

  /** How many copies the first k iterations send. */
  ghost function CopiesUntil(h: History, k: nat): nat {
    if k == 0 then 0 else CopiesUntil(h, k - 1) + CopiesIn(h, k - 1)
  }

  ghost function CopiesIn(h: History, k: nat): nat {
    assert TypedAt(h, k + 1);
    CopiesEach(h.trial.inst, h.trial.network, h.trial.order, h.states(k + 1).agents, k)
  }

  /** A due packet names an agent outside the round. */
  ghost predicate Misdelivers(h: Round, now: nat) {
    exists p :: p in Due(h, now) && p.dest !in h.agents
  }

  /** Nothing in flight and every agent quiescent: the loop's exit condition. */
  ghost predicate Quiet(config: RoundConfig, h: Round) {
    h.queue == [] && forall a | a in h.agents :: Terminated(config, h.agents[a])
  }

  // ---------------------------------------------------- one iteration, agent by agent

  /** The messages among these packets addressed to `a`. */
  function Inbox(due: seq<Packet>, a: AgentId): seq<PriceTableMessage> {
    if due == [] then []
    else
      var before, p := Inbox(due[..|due| - 1], a), due[|due| - 1];
      if p.dest == a then before + [p.message] else before
  }

  lemma {:induction false} InboxMembers(due: seq<Packet>, a: AgentId, m: PriceTableMessage)
    ensures m in Inbox(due, a) <==> exists p :: p in due && p.dest == a && p.message == m
  {
    if due != [] {
      var init, last := due[..|due| - 1], due[|due| - 1];
      InboxMembers(init, a, m);
      assert due == init + [last];
      if p :| p in init && p.dest == a && p.message == m {
        assert p in due;
      }
    }
  }

  /** An agent's state after delivery depends only on its own inbox. */
  lemma {:induction false} DeliverEachByAgent(agents: map<AgentId, AgentState>, due: seq<Packet>, a: AgentId)
    requires a in agents
    ensures DeliverEach(agents, due).Keys == agents.Keys
    ensures DeliverEach(agents, due)[a] == HandleAll(a, agents[a], Inbox(due, a))
  {
    if due != [] {
      var init, p := due[..|due| - 1], due[|due| - 1];
      DeliverEachByAgent(agents, init, a);
      var inbox := Inbox(due, a);
      if p.dest == a {
        assert inbox[..|inbox| - 1] == Inbox(init, a);
      }
    }
  }

  /** After delivery an agent's table is at least its own and every foreign one that was due. */
  lemma DeliveryCovers(agents: map<AgentId, AgentState>, due: seq<Packet>, a: AgentId)
    requires a in agents
    ensures a in DeliverEach(agents, due)
    ensures Below(agents[a].table, DeliverEach(agents, due)[a].table)
    ensures forall p | p in due && p.dest == a && p.message.sender != a ::
              BelowWhereKnown(p.message.entries, DeliverEach(agents, due)[a].table)
  {
    var inbox := Inbox(due, a);
    DeliverEachByAgent(agents, due, a);
    HandleAllJoins(a, agents[a], inbox);
    var foreign := Foreign(a, inbox);
    JoinAllIsLeastUpperBound(agents[a].table, foreign, agents[a].table);
    forall p | p in due && p.dest == a && p.message.sender != a
      ensures BelowWhereKnown(p.message.entries, DeliverEach(agents, due)[a].table)
    {
      InboxMembers(due, a, p.message);
      ForeignMembers(a, inbox, p.message.entries);
      assert p.message.entries in foreign;
      var i :| 0 <= i < |foreign| && foreign[i] == p.message.entries;
    }
  }

  /** Assignment and quiet count are untouched by delivery; a changed table is marked dirty. */
  lemma DeliveryMarksChanges(agents: map<AgentId, AgentState>, due: seq<Packet>, a: AgentId)
    requires a in agents
    ensures a in DeliverEach(agents, due)
    ensures var st, st' := agents[a], DeliverEach(agents, due)[a];
            && st'.assignment == st.assignment && st'.quiescentTicks == st.quiescentTicks
            && st'.dirty == (st.dirty || st'.table != st.table)
  {
    DeliverEachByAgent(agents, due, a);
    HandleAllJoins(a, agents[a], Inbox(due, a));
  }

  /** `x` was broadcast in this iteration by agent `a`. */
  ghost predicate SentBy(inst: Instance, network: Network, a: AgentId, st: AgentState, now: nat, x: Packet) {
    match Broadcast(a, inst.config, st)
    case None => false
    case Some(m) => x.dest in Neighbours(network, now, a) && IsSent(network.fate, m, x.dest, now, x)
  }

  lemma {:induction false} BroadcastMembers(inst: Instance, network: Network, order: seq<AgentId>,
                                            agents: map<AgentId, AgentState>, queue: seq<Packet>, now: nat, x: Packet)
    requires forall a | a in order :: a in agents
    ensures x in BroadcastEach(inst, network, order, agents, queue, now)
            <==> x in queue || exists a :: a in order && SentBy(inst, network, a, agents[a], now, x)
  {
    if order != [] {
      var rest, a := order[..|order| - 1], order[|order| - 1];
      var before := BroadcastEach(inst, network, rest, agents, queue, now);
      BroadcastMembers(inst, network, rest, agents, queue, now, x);
      assert order == rest + [a];
      match Broadcast(a, inst.config, agents[a])
      case None =>
      case Some(m) => EnqueueMembers(network.fate, before, m, Neighbours(network, now, a), now, x);
      if b :| b in rest && SentBy(inst, network, b, agents[b], now, x) {
        assert b in order;
      }
    }
  }

  /** The queue after an iteration: what was not yet due, and what was just sent. */
  lemma QueueAfter(trial: Trial, h: Round, now: nat, x: Packet)
    requires trial.Valid() && RoundTyped(trial.inst, h)
    ensures var h' := Iterate(trial, h, now);
            x in h'.queue <==> (x in h.queue && x.due > now)
                               || exists a ::
                                    a in h'.agents && SentBy(trial.inst, trial.network, a, h'.agents[a], now, x)
  {
    var h' := Iterate(trial, h, now);
    BroadcastMembers(trial.inst, trial.network, trial.order, h'.agents, Later(h, now), now, x);
    LaterMembers(h, now, x);
  }

  lemma SplitMembers(queue: seq<Packet>, n: nat, now: nat, x: Packet)
    requires n <= |queue|
    requires (forall i | 0 <= i < n :: queue[i].due <= now) && (forall i | n <= i < |queue| :: queue[i].due > now)
    ensures x in queue[..n] <==> x in queue && x.due <= now
    ensures x in queue[n..] <==> x in queue && x.due > now
  {
    assert queue == queue[..n] + queue[n..];
    assert forall p | p in queue[..n] :: p.due <= now;
    assert forall p | p in queue[n..] :: p.due > now;
  }

  lemma LaterMembers(h: Round, now: nat, x: Packet)
    requires Sorted(h.queue)
    ensures x in Later(h, now) <==> x in h.queue && x.due > now
    ensures x in Due(h, now) <==> x in h.queue && x.due <= now
  {
    DueCountSplits(h.queue, now);
    SplitMembers(h.queue, DueCount(h.queue, now), now, x);
  }

  /** The iteration of one agent: delivery, then a tick. */
  lemma IterateAgent(trial: Trial, h: Round, now: nat, a: AgentId)
    requires trial.Valid() && RoundTyped(trial.inst, h) && a in h.agents
    ensures a in DeliverEach(h.agents, Due(h, now))
    ensures Fits(trial.inst.rows[a], DeliverEach(h.agents, Due(h, now))[a])
    ensures Iterate(trial, h, now).agents[a]
            == TickState(a, trial.inst.rows[a], trial.inst.config, DeliverEach(h.agents, Due(h, now))[a])
  {
    DeliverEachTyped(trial.inst, h.agents, Due(h, now));
  }

  /** Tables grow in every iteration, by everything that was due. */
  lemma IterationGrows(trial: Trial, h: Round, now: nat, a: AgentId)
    requires trial.Valid() && RoundTyped(trial.inst, h) && a in h.agents
    ensures Below(h.agents[a].table, Iterate(trial, h, now).agents[a].table)
    ensures forall p | p in Due(h, now) && p.dest == a && p.message.sender != a ::
              BelowWhereKnown(p.message.entries, Iterate(trial, h, now).agents[a].table)
  {
    var mid := DeliverEach(h.agents, Due(h, now));
    IterateAgent(trial, h, now, a);
    DeliveryCovers(h.agents, Due(h, now), a);
    TickGrows(a, trial.inst.rows[a], trial.inst.config, mid[a]);
    var table := Iterate(trial, h, now).agents[a].table;
    BelowIsTransitive(h.agents[a].table, mid[a].table, table);
    forall p | p in Due(h, now) && p.dest == a && p.message.sender != a
      ensures BelowWhereKnown(p.message.entries, table)
    {
      forall t | t in p.message.entries && t in table ensures Leq(p.message.entries[t], table[t]) {
        assert Leq(p.message.entries[t], mid[a].table[t]);
        assert Leq(mid[a].table[t], table[t]);
      }
    }
  }

  /** An agent whose table changed, or that was dirty, resets its quiet count and therefore speaks. */
  lemma ChangedAgentSpeaks(trial: Trial, h: Round, now: nat, a: AgentId)
    requires trial.Valid() && RoundTyped(trial.inst, h) && a in h.agents
    ensures var st, st' := h.agents[a], Iterate(trial, h, now).agents[a];
            && !st'.dirty
            && (st.dirty || st'.table != st.table ==>
                  st'.quiescentTicks == 0
                  && Broadcast(a, trial.inst.config, st') == Some(PriceTableMessage(a, st'.table)))
  {
    IterateAgent(trial, h, now, a);
    DeliveryMarksChanges(h.agents, Due(h, now), a);
  }

  // -------------------------------------------------- one iteration of a history

  lemma NextTableGrows(h: History, k: nat, a: AgentId)
    requires a in h.trial.inst.rows
    ensures Below(TableAt(h, k, a), TableAt(h, k + 1, a))
  {
    assert TypedAt(h, k) && Follows(h, k);
    IterationGrows(h.trial, h.states(k), k, a);
  }

  /** A due packet is taken in by its destination. */
  lemma NextTableCovers(h: History, k: nat, a: AgentId, p: Packet)
    requires a in h.trial.inst.rows
    requires p in h.states(k).queue && p.due <= k && p.dest == a && p.message.sender != a
    ensures BelowWhereKnown(p.message.entries, TableAt(h, k + 1, a))
  {
    assert TypedAt(h, k) && Follows(h, k);
    LaterMembers(h.states(k), k, p);
    IterationGrows(h.trial, h.states(k), k, a);
  }

  /** An agent that was dirty or whose table changed speaks; nobody is dirty after a tick. */
  lemma NextAgentSpeaks(h: History, k: nat, a: AgentId)
    requires a in h.trial.inst.rows
    ensures !AgentAt(h, k + 1, a).dirty
    ensures AgentAt(h, k, a).dirty || TableAt(h, k + 1, a) != TableAt(h, k, a) ==>
              && AgentAt(h, k + 1, a).quiescentTicks == 0
              && Broadcast(a, h.trial.inst.config, AgentAt(h, k + 1, a))
                 == Some(PriceTableMessage(a, TableAt(h, k + 1, a)))
  {
    assert TypedAt(h, k) && Follows(h, k);
    ChangedAgentSpeaks(h.trial, h.states(k), k, a);
  }

  /** The next queue: what was not yet due, and what was just sent. */
  lemma NextQueue(h: History, k: nat, x: Packet)
    ensures x in h.states(k + 1).queue
            <==> (x in h.states(k).queue && x.due > k)
                 || exists a ::
                      a in h.trial.inst.rows && SentBy(h.trial.inst, h.trial.network, a, AgentAt(h, k + 1, a), k, x)
  {
    assert TypedAt(h, k) && Follows(h, k) && TypedAt(h, k + 1);
    QueueAfter(h.trial, h.states(k), k, x);
    var agents := h.states(k + 1).agents;
    assert forall a | a in agents :: AgentAt(h, k + 1, a) == agents[a];
  }

  /** A positive quiet count means the last tick was not a bid: the agent still holds its task in its own table. */
  lemma QuietCountMeansNotOutbid(h: History, k: nat, a: AgentId)
    requires a in h.trial.inst.rows && AgentAt(h, k + 1, a).quiescentTicks > 0
    ensures AgentAt(h, k + 1, a).assignment.Some? ==> AgentAt(h, k + 1, a).assignment.value in TableAt(h, k + 1, a)
    ensures !Outbid(a, AgentAt(h, k + 1, a))
  {
    assert TypedAt(h, k) && Follows(h, k);
    IterateAgent(h.trial, h.states(k), k, a);
  }
}
