/**
 The round harness: agents as objects, the event loop, and the consistency check.
 Each method is tied to the history of the round, so that the results about
 histories apply to what `RunRound` returns.
 */
module Harness {
  import opened Types
  import opened Prices
  import opened Engine
  import opened Auction
  import opened Transport
  import opened Rounds
  import opened Optimality

  type Team = map<AgentId, AuctionAgent>

  ghost function Objects(team: Team): set<object> {
    (set a | a in team :: team[a] as object) + (set a | a in team :: team[a].prices as object)
  }

  /** No two agents share an object. */
  ghost predicate Separate(team: Team) {
    forall a, b {:trigger Apart(team, a, b)} | a in team && b in team && a != b :: Apart(team, a, b)
  }

  ghost predicate Apart(team: Team, a: AgentId, b: AgentId)
    requires a in team && b in team
  {
    team[a] != team[b] && team[a].prices != team[b].prices
  }

  /** One agent object per row of the instance. */
  ghost predicate Staffed(inst: Instance, team: Team) {
    && team.Keys == inst.rows.Keys
    && Separate(team)
    && forall a | a in team :: team[a].id == a && team[a].row == inst.rows[a] && team[a].config == inst.config
  }

  ghost function States(team: Team): map<AgentId, AgentState>
    reads Objects(team)
  {
    map a | a in team :: team[a].State()
  }

  ghost predicate AllValid(team: Team)
    reads Objects(team)
  {
    forall a | a in team :: team[a].Valid()
  }

  /** One agent takes in a message; the others are untouched. */
  method DeliverOne(team: Team, dest: AgentId, message: PriceTableMessage)
    requires Separate(team) && AllValid(team) && dest in team && team[dest].id == dest
    modifies team[dest], team[dest].prices
    ensures AllValid(team)
    ensures States(team) == old(States(team))[dest := Handle(dest, old(team[dest].State()), message)]
  {
    assert forall b | b in team && b != dest :: Apart(team, dest, b);
    team[dest].HandleMessage(message);
  }

  /** One agent ticks; the others are untouched. */
  method TickOne(team: Team, a: AgentId) returns (out: seq<PriceTableMessage>)
    requires Separate(team) && AllValid(team) && a in team && team[a].id == a
    modifies team[a], team[a].prices
    ensures AllValid(team)
    ensures var next := TickState(a, team[a].row, team[a].config, old(team[a].State()));
            && States(team) == old(States(team))[a := next]
            && out == match Broadcast(a, team[a].config, next) case None => [] case Some(m) => [m]
  {
    ghost var row, config, st := team[a].row, team[a].config, team[a].State();
    assert forall b | b in team && b != a :: Apart(team, a, b);
    out := team[a].Tick();
    assert team[a].State() == TickState(a, row, config, st);
    assert forall b | b in team && b != a :: unchanged(team[b]) && unchanged(team[b].prices);
  }

  /** Hand each due packet to its destination; an unknown destination stops the round. */
  method DeliverBatch(team: Team, due: seq<Packet>) returns (unknown: Option<AgentId>)
    requires Separate(team) && AllValid(team) && forall a | a in team :: team[a].id == a
    modifies Objects(team)
    ensures AllValid(team)
    ensures unknown.None? ==> States(team) == DeliverEach(old(States(team)), due)
    ensures unknown.None? <==> forall p | p in due :: p.dest in team
    ensures unknown.Some? ==> exists p | p in due :: p.dest == unknown.value && p.dest !in team
  {
    for i := 0 to |due|
      invariant AllValid(team)
      invariant States(team) == DeliverEach(old(States(team)), due[..i])
      invariant forall p | p in due[..i] :: p.dest in team
    {
      var p := due[i];
      assert due[..i + 1][..i] == due[..i];
      if p.dest !in team {
        assert p in due;
        return Some(p.dest);
      }
      DeliverOne(team, p.dest, p.message);
    }
    assert due[..|due|] == due;
    return None;
  }

  /** The agents when only those in `done` have moved on from `before` to `after`. */
  ghost function Partly(before: map<AgentId, AgentState>, after: map<AgentId, AgentState>,
                        done: seq<AgentId>): map<AgentId, AgentState>
    requires before.Keys <= after.Keys
  {
    map a | a in before :: if a in done then after[a] else before[a]
  }

  lemma PartlyNext(before: map<AgentId, AgentState>, after: map<AgentId, AgentState>, order: seq<AgentId>, i: nat)
    requires before.Keys <= after.Keys
    requires i < |order| && NoDuplicates(order) && order[i] in before
    ensures Partly(before, after, order[..i])[order[i]] == before[order[i]]
    ensures Partly(before, after, order[..i + 1]) == Partly(before, after, order[..i])[order[i] := after[order[i]]]
  {
    PrefixNext(order, i);
  }

  lemma PartlyEnds(before: map<AgentId, AgentState>, after: map<AgentId, AgentState>, order: seq<AgentId>)
    requires before.Keys == after.Keys && forall a | a in before :: a in order
    ensures Partly(before, after, []) == before && Partly(before, after, order) == after
  {
  }

  /** The queue after agent `a`, now in state `st`, has broadcast. */
  function AfterBroadcast(inst: Instance, network: Network, a: AgentId, st: AgentState, queue: seq<Packet>,
                          now: nat): seq<Packet>
  {
    match Broadcast(a, inst.config, st)
    case None => queue
    case Some(m) => Send(network, queue, m, now)
  }

  lemma BroadcastNext(inst: Instance, network: Network, order: seq<AgentId>, i: nat, agents: map<AgentId, AgentState>,
                      queue: seq<Packet>, now: nat)
    requires i < |order| && forall a | a in order :: a in agents
    ensures forall a | a in order[..i] :: a in agents
    ensures forall a | a in order[..i + 1] :: a in agents
    ensures BroadcastEach(inst, network, order[..i + 1], agents, queue, now)
            == AfterBroadcast(inst, network, order[i], agents[order[i]],
                              BroadcastEach(inst, network, order[..i], agents, queue, now), now)
    ensures CopiesEach(inst, network, order[..i + 1], agents, now)
            == CopiesEach(inst, network, order[..i], agents, now)
              + CopiesOf(inst, network, order[i], agents[order[i]], now)
  {
    assert order[..i + 1][..i] == order[..i];
  }

  /** Broadcast one message; no agent is touched. */
  method SendOne(ghost team: Team, transport: SimTransport, message: PriceTableMessage, now: nat)
    requires AllValid(team) && transport.Valid() && transport !in Objects(team)
    modifies transport
    ensures AllValid(team) && States(team) == old(States(team)) && transport.Valid()
    ensures transport.queue == Send(transport.network, old(transport.queue), message, now)
    ensures transport.messagesSent == old(transport.messagesSent) + |Neighbours(transport.network, now, message.sender)|
  {
    transport.Broadcast(message, now);
  }

  /** One agent ticks and its message, if any, is broadcast. */
  method TickAndSend(ghost inst: Instance, team: Team, a: AgentId, transport: SimTransport, now: nat)
    requires Separate(team) && AllValid(team) && a in team && a in inst.rows
    requires team[a].id == a && team[a].row == inst.rows[a] && team[a].config == inst.config
    requires transport.Valid() && transport !in Objects(team)
    modifies team[a], team[a].prices, transport
    ensures AllValid(team) && transport.Valid()
    ensures var next := TickState(a, inst.rows[a], inst.config, old(team[a].State()));
            && States(team) == old(States(team))[a := next]
            && transport.queue == AfterBroadcast(inst, transport.network, a, next, old(transport.queue), now)
            && transport.messagesSent == old(transport.messagesSent) + CopiesOf(inst, transport.network, a, next, now)
  {
    var out := TickOne(team, a);
    if out != [] {
      SendOne(team, transport, out[0], now);
    }
  }

  /** Tick every agent once, in dictionary order, and broadcast what it says. */
  method TickTeam(ghost inst: Instance, team: Team, order: seq<AgentId>, transport: SimTransport, now: nat)
    requires inst.Valid() && Staffed(inst, team) && AllValid(team) && AgentsTyped(inst, States(team))
    requires NoDuplicates(order) && (forall a | a in order :: a in team) && (forall a | a in team :: a in order)
    requires transport.Valid() && transport !in Objects(team)
    modifies Objects(team), transport
    ensures AllValid(team) && transport.Valid()
    ensures States(team) == TickEach(inst, old(States(team)))
    ensures transport.queue == BroadcastEach(inst, transport.network, order, States(team), old(transport.queue), now)
    ensures transport.messagesSent
            == old(transport.messagesSent) + CopiesEach(inst, transport.network, order, States(team), now)
  {
    ghost var before, queue, sent := States(team), transport.queue, transport.messagesSent;
    ghost var after := TickEach(inst, before);
    PartlyEnds(before, after, order);
    assert order[..0] == [];
    for i := 0 to |order|
      invariant AllValid(team) && transport.Valid()
      invariant States(team) == Partly(before, after, order[..i])
      invariant transport.queue == BroadcastEach(inst, transport.network, order[..i], after, queue, now)
      invariant transport.messagesSent == sent + CopiesEach(inst, transport.network, order[..i], after, now)
    {
      PartlyNext(before, after, order, i);
      BroadcastNext(inst, transport.network, order, i, after, queue, now);
      TickAndSend(inst, team, order[i], transport, now);
    }
    assert order[..|order|] == order;
  }

  // ------------------------------------------------------ merged prices

  function Absorb(m: Table, table: Table): Table {
    map t | t in m.Keys + table.Keys ::
      if t !in m then table[t] else if t in table then Max(m[t], table[t]) else m[t]
  }

  /** Fold one agent's snapshot into the merged table, entry by entry. */
  method AbsorbSnapshot(m: Table, snapshot: Table) returns (merged: Table)
    ensures merged == Absorb(m, snapshot)
  {
    merged := m;
    var todo := snapshot.Keys;
    while todo != {}
      invariant todo <= snapshot.Keys
      invariant merged == Absorb(m, snapshot - todo)
    {
      var t :| t in todo;
      todo := todo - {t};
      merged := merged[t := if t in merged then Max(merged[t], snapshot[t]) else snapshot[t]];
      assert merged == Absorb(m, snapshot - todo);
    }
    assert snapshot - {} == snapshot;
  }

  /** The merged table of these agents' snapshots, folded in order. */
  function MergedTable(agents: map<AgentId, AgentState>, done: seq<AgentId>): Table
    requires forall a | a in done :: a in agents
  {
    if done == [] then map[]
    else Absorb(MergedTable(agents, done[..|done| - 1]), agents[done[|done| - 1]].table)
  }

  /** `e` is the largest entry for `t` among the agents in `done`. */
  ghost predicate TopOver(agents: map<AgentId, AgentState>, done: seq<AgentId>, t: TaskId, e: PriceEntry)
    requires forall a | a in done :: a in agents && t in agents[a].table
  {
    && (exists a :: a in done && agents[a].table[t] == e)
    && (forall a | a in done :: Leq(agents[a].table[t], e))
  }

  /** One more agent: the larger of the two entries. */
  lemma TopNext(agents: map<AgentId, AgentState>, init: seq<AgentId>, last: AgentId, t: TaskId, e: PriceEntry)
    requires forall a | a in init + [last] :: a in agents && t in agents[a].table
    requires init != [] && (forall a | a in init :: a in agents && t in agents[a].table) && TopOver(agents, init, t, e)
    ensures TopOver(agents, init + [last], t, Max(e, agents[last].table[t]))
  {
    var top := Max(e, agents[last].table[t]);
    if top == e {
      var a :| a in init && agents[a].table[t] == e;
      assert a in init + [last];
    } else {
      assert last in init + [last];
    }
    forall a | a in init + [last] ensures Leq(agents[a].table[t], top) {
      assert a in init || a == last;
    }
  }

  lemma {:induction false} MergedTableIsTop(agents: map<AgentId, AgentState>, done: seq<AgentId>, t: TaskId)
    requires done != [] && forall a | a in done :: a in agents && t in agents[a].table
    ensures t in MergedTable(agents, done) && TopOver(agents, done, t, MergedTable(agents, done)[t])
    decreases |done|
  {
    var init, last := done[..|done| - 1], done[|done| - 1];
    assert done == init + [last];
    assert last in done;
    if init != [] {
      forall a | a in init ensures a in agents && t in agents[a].table {
        assert a in done;
      }
      MergedTableIsTop(agents, init, t);
      TopNext(agents, init, last, t, MergedTable(agents, init)[t]);
    }
  }

  lemma {:induction false} MergedTableKeys(agents: map<AgentId, AgentState>, done: seq<AgentId>, tasks: set<TaskId>)
    requires forall a | a in done :: a in agents && agents[a].table.Keys == tasks
    ensures MergedTable(agents, done).Keys == if done == [] then {} else tasks
    decreases |done|
  {
    if done != [] {
      MergedTableKeys(agents, done[..|done| - 1], tasks);
    }
  }

  /** Folding all snapshots gives the merged table. */
  lemma MergedTableIsMerged(inst: Instance, agents: map<AgentId, AgentState>, order: seq<AgentId>)
    requires AgentsTyped(inst, agents) && order != []
    requires (forall a | a in order :: a in agents) && (forall a | a in agents :: a in order)
    ensures IsMerged(inst.tasks, agents, MergedTable(agents, order))
  {
    MergedTableKeys(agents, order, inst.tasks);
    forall t | t in inst.tasks ensures IsTop(agents, t, MergedTable(agents, order)[t]) {
      MergedTableIsTop(agents, order, t);
    }
  }

  lemma MergedTableNext(agents: map<AgentId, AgentState>, order: seq<AgentId>, i: nat)
    requires i < |order| && forall a | a in order :: a in agents
    ensures MergedTable(agents, order[..i + 1]) == Absorb(MergedTable(agents, order[..i]), agents[order[i]].table)
  {
    assert order[..i + 1][..i] == order[..i];
  }

  method MergedPrices(team: Team, order: seq<AgentId>, ghost agents: map<AgentId, AgentState>) returns (merged: Table)
    requires agents == States(team) && forall a | a in order :: a in team
    ensures merged == MergedTable(agents, order)
  {
    merged := map[];
    for i := 0 to |order|
      invariant merged == MergedTable(agents, order[..i])
    {
      MergedTableNext(agents, order, i);
      var snapshot := team[order[i]].prices.entries;
      assert snapshot == agents[order[i]].table;
      merged := AbsorbSnapshot(merged, snapshot);
    }
    assert order[..|order|] == order;
  }

  // ------------------------------------------------------ consistency check

  datatype RoundError =
    | TaskSetsDiffer
    | TooFewTasks
    | BadAgentId(agent: AgentId)
    | DidNotTerminate
    | UnknownDestination(dest: AgentId)
    | InconsistentAssignment(agent: AgentId)

  datatype Result<+T> = Success(value: T) | Failure(error: RoundError)

  function Assignments(agents: map<AgentId, AgentState>): map<AgentId, Option<TaskId>> {
    map a | a in agents :: agents[a].assignment
  }

  /** The claims of the agents in `done` pass both checks, and `holders` records them. */
  ghost predicate Checked(agents: map<AgentId, AgentState>, m: Table, done: seq<AgentId>, holders: map<TaskId, AgentId>)
  {
    && (forall a | a in done :: a in agents && Passes(agents[a], m, holders, a))
    && (forall t | t in holders ::
         holders[t] in done && holders[t] in agents && agents[holders[t]].assignment == Some(t))
  }

  ghost predicate Passes(st: AgentState, m: Table, holders: map<TaskId, AgentId>, a: AgentId) {
    st.assignment.Some? ==>
      var t := st.assignment.value;
      t in m && m[t].bidder == a && t in holders && holders[t] == a
  }

  lemma CheckedNext(agents: map<AgentId, AgentState>, m: Table, done: seq<AgentId>, holders: map<TaskId, AgentId>,
                    a: AgentId, holders': map<TaskId, AgentId>)
    requires Checked(agents, m, done, holders) && a in agents && a !in done
    requires agents[a].assignment.None? ==> holders' == holders
    requires agents[a].assignment.Some? ==>
               var t := agents[a].assignment.value;
               t in m && m[t].bidder == a && t !in holders && holders' == holders[t := a]
    ensures Checked(agents, m, done + [a], holders')
  {
    forall b | b in done + [a] ensures b in agents && Passes(agents[b], m, holders', b) {
      if b in done {
        assert Passes(agents[b], m, holders, b);
      }
    }
  }

  /** Agent `a` claims a task for which the merged table names another bidder. */
  ghost predicate Conflicts(agents: map<AgentId, AgentState>, m: Table, a: AgentId) {
    && a in agents && agents[a].assignment.Some?
    && agents[a].assignment.value in m && m[agents[a].assignment.value].bidder != a
  }

  /** `a` is the first in the order whose claim conflicts. */
  ghost predicate FirstConflict(agents: map<AgentId, AgentState>, m: Table, order: seq<AgentId>, a: AgentId) {
    exists i :: 0 <= i < |order| && order[i] == a && Conflicts(agents, m, a)
                && forall b | b in order[..i] :: !Conflicts(agents, m, b)
  }

  lemma WrongClaim(agents: map<AgentId, AgentState>, m: Table, order: seq<AgentId>, i: nat,
                   holders: map<TaskId, AgentId>)
    requires i < |order| && Conflicts(agents, m, order[i]) && Checked(agents, m, order[..i], holders)
    ensures !Consistent(agents, m) && FirstConflict(agents, m, order, order[i])
  {
    forall b | b in order[..i] ensures !Conflicts(agents, m, b) {
      assert Passes(agents[b], m, holders, b);
    }
  }

  /** An earlier holder would be the bidder that the merged table names, which is this agent. */
  lemma NobodyElseHolds(agents: map<AgentId, AgentState>, m: Table, done: seq<AgentId>, holders: map<TaskId, AgentId>,
                        a: AgentId, task: TaskId)
    requires Checked(agents, m, done, holders) && a !in done && task in m && m[task].bidder == a
    ensures task !in holders
  {
  }

  lemma CheckedAll(agents: map<AgentId, AgentState>, m: Table, order: seq<AgentId>, holders: map<TaskId, AgentId>)
    requires Checked(agents, m, order, holders) && forall a | a in agents :: a in order
    ensures Consistent(agents, m)
  {
    forall a | a in agents && agents[a].assignment.Some?
      ensures agents[a].assignment.value in m && m[agents[a].assignment.value].bidder == a
    {
      assert Passes(agents[a], m, holders, a);
    }
  }

  function AssignmentsOf(agents: map<AgentId, AgentState>, done: seq<AgentId>): map<AgentId, Option<TaskId>> {
    map a | a in agents && a in done :: agents[a].assignment
  }

  lemma AssignmentsNext(agents: map<AgentId, AgentState>, done: seq<AgentId>, a: AgentId)
    requires a in agents
    ensures AssignmentsOf(agents, done + [a]) == AssignmentsOf(agents, done)[a := agents[a].assignment]
  {
  }

  lemma PrefixNext(order: seq<AgentId>, i: nat)
    requires i < |order| && NoDuplicates(order)
    ensures order[..i + 1] == order[..i] + [order[i]] && order[i] !in order[..i]
  {
  }

  /** Cross-check every claim against the merged table, and the claims against one another. */
  method ConsistentAssignment(team: Team, order: seq<AgentId>, ghost agents: map<AgentId, AgentState>)
    returns (r: Result<map<AgentId, Option<TaskId>>>)
    requires agents == States(team) && NoDuplicates(order)
    requires (forall a | a in order :: a in team) && (forall a | a in team :: a in order)
    requires forall a | a in agents && agents[a].assignment.Some? ::
               agents[a].assignment.value in MergedTable(agents, order)
    ensures r.Success? <==> Consistent(agents, MergedTable(agents, order))
    ensures r.Success? ==> r.value == Assignments(agents)
    ensures r.Failure? ==> r.error.InconsistentAssignment?
                           && FirstConflict(agents, MergedTable(agents, order), order, r.error.agent)
  {
    var globalPrices := MergedPrices(team, order, agents);
    var assignment: map<AgentId, Option<TaskId>> := map[];
    var holders: map<TaskId, AgentId> := map[];
    for i := 0 to |order|
      invariant Checked(agents, globalPrices, order[..i], holders)
      invariant assignment == AssignmentsOf(agents, order[..i])
    {
      var a := order[i];
      PrefixNext(order, i);
      AssignmentsNext(agents, order[..i], a);
      var claim := team[a].assignment;
      assert agents[a].assignment == claim;
      assignment := assignment[a := claim];
      if claim == None {
        CheckedNext(agents, globalPrices, order[..i], holders, a, holders);
      } else {
        var task := claim.value;
        if globalPrices[task].bidder != a {
          WrongClaim(agents, globalPrices, order, i, holders);
          return Failure(InconsistentAssignment(a));
        }
        NobodyElseHolds(agents, globalPrices, order[..i], holders, a, task);
        if task in holders {
          assert false;
        }
        CheckedNext(agents, globalPrices, order[..i], holders, a, holders[task := a]);
        holders := holders[task := a];
      }
    }
    assert order[..|order|] == order;
    CheckedAll(agents, globalPrices, order, holders);
    return Success(assignment);
  }
}
