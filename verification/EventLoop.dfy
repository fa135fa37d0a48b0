/**
 One auction round from its inputs to its result: the input checks, the event
 loop over agent objects and the transport, and how the result relates to the
 history of the round.
 */
module EventLoop {
  import opened Types
  import opened Engine
  import opened Auction
  import opened Transport
  import opened Rounds
  import opened Optimality
  import opened Harness
  import Sets

  // ------------------------------------------------------ input checks

  function TaskSet(row: Row): set<TaskId> {
    set t | t in row.order
  }

  /** `order` lists these agents, each once. */
  ghost predicate Covers(order: seq<AgentId>, agents: set<AgentId>) {
    NoDuplicates(order) && (forall a | a in order :: a in agents) && (forall a | a in agents :: a in order)
  }

  /** The agents in dictionary order, with a dictionary of benefits each. */
  ghost predicate IsInput(order: seq<AgentId>, rows: map<AgentId, Row>) {
    Covers(order, rows.Keys) && forall a | a in rows :: NoDuplicates(rows[a].order)
  }

  ghost predicate CommonTasks(rows: map<AgentId, Row>, tasks: set<TaskId>) {
    rows != map[] && forall a | a in rows :: TaskSet(rows[a]) == tasks
  }

  lemma CommonTasksMakeOneSet(rows: map<AgentId, Row>, taskSets: set<set<TaskId>>, tasks: set<TaskId>)
    requires taskSets == (set a | a in rows :: TaskSet(rows[a])) && CommonTasks(rows, tasks)
    ensures taskSets == {tasks}
  {
    var a := Sets.Pick(rows.Keys);
    assert TaskSet(rows[a]) in taskSets;
  }

  lemma OneSetMakesCommonTasks(rows: map<AgentId, Row>, taskSets: set<set<TaskId>>, tasks: set<TaskId>)
    requires taskSets == (set a | a in rows :: TaskSet(rows[a])) && |taskSets| == 1 && tasks in taskSets
    ensures CommonTasks(rows, tasks)
  {
    Sets.SubsetCardinality({tasks}, taskSets);
    assert forall a | a in rows :: TaskSet(rows[a]) in taskSets;
  }

  /** There is one task set exactly when the agents have a common one, and then it is that one. */
  lemma TaskSetsAgree(rows: map<AgentId, Row>, taskSets: set<set<TaskId>>)
    requires taskSets == (set a | a in rows :: TaskSet(rows[a]))
    ensures forall tasks | CommonTasks(rows, tasks) :: taskSets == {tasks}
    ensures |taskSets| == 1 ==> forall tasks | tasks in taskSets :: CommonTasks(rows, tasks)
  {
    forall tasks | CommonTasks(rows, tasks) ensures taskSets == {tasks} {
      CommonTasksMakeOneSet(rows, taskSets, tasks);
    }
    if |taskSets| == 1 {
      forall tasks | tasks in taskSets ensures CommonTasks(rows, tasks) {
        OneSetMakesCommonTasks(rows, taskSets, tasks);
      }
    }
  }

  /** What a round requires of its benefits. */
  ghost predicate Accepts(rows: map<AgentId, Row>, tasks: set<TaskId>) {
    CommonTasks(rows, tasks) && |rows| <= |tasks| && forall a | a in rows :: a >= 0
  }

  /** Which requirement fails; an earlier one is reported first. */
  ghost predicate Rejects(rows: map<AgentId, Row>, error: RoundError) {
    match error
    case TaskSetsDiffer => !exists tasks :: CommonTasks(rows, tasks)
    case TooFewTasks => exists tasks :: CommonTasks(rows, tasks) && |tasks| < |rows|
    case BadAgentId(a) => a in rows && a < 0 && exists tasks :: CommonTasks(rows, tasks) && |rows| <= |tasks|
    case _ => false
  }

  /** All agents must bid over one task set with a task for each, and ids must not be negative. */
  method CheckInput(order: seq<AgentId>, rows: map<AgentId, Row>) returns (r: Result<set<TaskId>>)
    requires IsInput(order, rows)
    ensures r.Success? ==> Accepts(rows, r.value) && forall tasks | Accepts(rows, tasks) :: tasks == r.value
    ensures r.Failure? ==> Rejects(rows, r.error) && !exists tasks :: Accepts(rows, tasks)
  {
    var taskSets := set a | a in rows :: TaskSet(rows[a]);
    TaskSetsAgree(rows, taskSets);
    if |taskSets| != 1 {
      return Failure(TaskSetsDiffer);
    }
    var tasks :| tasks in taskSets;
    if |tasks| < |rows| {
      return Failure(TooFewTasks);
    }
    for i := 0 to |order|
      invariant forall a | a in order[..i] :: a >= 0
    {
      if order[i] < 0 {
        return Failure(BadAgentId(order[i]));
      }
      PrefixNext(order, i);
    }
    assert order[..|order|] == order;
    return Success(tasks);
  }

  // ------------------------------------------------------ creating the agents

  ghost predicate IsNew(inst: Instance, a: AgentId, agent: AuctionAgent)
    reads agent, agent.prices
  {
    && a in inst.rows
    && agent.id == a && agent.row == inst.rows[a] && agent.config == inst.config
    && agent.State() == InitialState(inst.tasks)
  }

  /** The agents created so far: those in `done`, in their initial state. */
  ghost predicate Created(inst: Instance, team: Team, done: seq<AgentId>)
    reads Objects(team)
  {
    && (forall a | a in team :: a in done)
    && (forall a | a in done :: a in team)
    && Separate(team)
    && (forall a | a in team :: IsNew(inst, a, team[a]))
  }

  lemma CreatedAll(inst: Instance, team: Team, order: seq<AgentId>)
    requires inst.Valid() && Covers(order, inst.rows.Keys) && Created(inst, team, order)
    ensures Staffed(inst, team) && AllValid(team) && States(team) == Init(inst).agents
  {
    forall a | a in team ensures team[a].Valid() {
      assert IsNew(inst, a, team[a]);
    }
  }

  method NewAgent(inst: Instance, a: AgentId) returns (agent: AuctionAgent)
    requires inst.Valid() && a in inst.rows
    ensures IsNew(inst, a, agent) && fresh(agent) && fresh(agent.prices)
  {
    agent := new AuctionAgent(a, inst.rows[a], inst.tasks, inst.config);
  }

  method AddAgent(inst: Instance, team: Team, ghost done: seq<AgentId>, a: AgentId) returns (team': Team)
    requires inst.Valid() && a in inst.rows && a !in done && Created(inst, team, done)
    ensures Created(inst, team', done + [a]) && fresh(Objects(team') - Objects(team))
  {
    ghost var known := Objects(team);
    assert forall b | b in team :: team[b] in known && team[b].prices in known;
    var agent := NewAgent(inst, a);
    team' := team[a := agent];
    JoinTeam(inst, team, done, a, agent);
    TeamGrows(team, a, agent);
  }

  lemma TeamGrows(team: Team, a: AgentId, agent: AuctionAgent)
    ensures Objects(team[a := agent]) <= Objects(team) + {agent, agent.prices}
  {
    var team' := team[a := agent];
    assert forall b | b in team' && b != a :: team'[b] == team[b];
  }

  /** A new agent that shares no object with the team joins it. */
  lemma JoinTeam(inst: Instance, team: Team, done: seq<AgentId>, a: AgentId, agent: AuctionAgent)
    requires Created(inst, team, done) && a !in done && IsNew(inst, a, agent)
    requires agent !in Objects(team) && agent.prices !in Objects(team)
    ensures Created(inst, team[a := agent], done + [a])
  {
    forall b | b in team
      ensures IsNew(inst, b, team[b]) && team[b] in Objects(team) && team[b].prices in Objects(team)
    {
    }
    var team' := team[a := agent];
    forall b, c | b in team' && c in team' && b != c ensures Apart(team', b, c) {
      assert b != a && c != a ==> Apart(team, b, c);
    }
  }

  /** One fresh agent object per row, each in its initial state. */
  method CreateTeam(inst: Instance, order: seq<AgentId>) returns (team: Team)
    requires inst.Valid() && Covers(order, inst.rows.Keys)
    ensures Staffed(inst, team) && AllValid(team) && fresh(Objects(team))
    ensures States(team) == Init(inst).agents
  {
    team := map[];
    for i := 0 to |order|
      invariant Created(inst, team, order[..i]) && fresh(Objects(team))
    {
      PrefixNext(order, i);
      team := AddAgent(inst, team, order[..i], order[i]);
    }
    assert order[..|order|] == order;
    CreatedAll(inst, team, order);
  }

  // ------------------------------------------------------ the loop

  /** The objects are in the state of the history before iteration k. */
  ghost predicate Mirrors(h: History, k: nat, team: Team, transport: SimTransport)
    reads Objects(team), transport
  {
    && AllValid(team) && transport.Valid()
    && States(team) == h.states(k).agents
    && transport.queue == h.states(k).queue
  }

  ghost predicate Stages(h: History, team: Team, order: seq<AgentId>, transport: SimTransport) {
    && Staffed(h.trial.inst, team) && order == h.trial.order
    && transport.network == h.trial.network && transport !in Objects(team)
  }

  /** A packet due in iteration k is for `dest`, which is not in the round. */
  ghost predicate NamesStranger(h: History, k: nat, dest: AgentId) {
    dest !in h.trial.inst.rows && exists p | p in Due(h.states(k), k) :: p.dest == dest
  }

  lemma NextRound(h: History, k: nat)
    ensures AgentsTyped(h.trial.inst, DeliverEach(h.states(k).agents, Due(h.states(k), k)))
    ensures h.states(k + 1).agents == TickEach(h.trial.inst, DeliverEach(h.states(k).agents, Due(h.states(k), k)))
    ensures h.states(k + 1).agents.Keys == h.trial.inst.rows.Keys
    ensures h.states(k + 1).queue
            == BroadcastEach(h.trial.inst, h.trial.network, h.trial.order, h.states(k + 1).agents,
                             Later(h.states(k), k), k)
  {
    assert TypedAt(h, k) && Follows(h, k) && TypedAt(h, k + 1);
    DeliverEachTyped(h.trial.inst, h.states(k).agents, Due(h.states(k), k));
  }

  lemma DueSplits(r: Round, now: nat, due: seq<Packet>, rest: seq<Packet>)
    requires r.queue == due + rest && due == r.queue[..DueCount(r.queue, now)]
    ensures due == Due(r, now) && rest == Later(r, now)
  {
  }

  /** Take what is due off the queue; no agent is touched. */
  method TakeDue(ghost r: Round, team: Team, transport: SimTransport, tick: nat) returns (due: seq<Packet>)
    requires AllValid(team) && transport.Valid() && transport !in Objects(team)
    requires States(team) == r.agents && transport.queue == r.queue
    modifies transport
    ensures AllValid(team) && transport.Valid() && States(team) == r.agents
    ensures due == Due(r, tick) && transport.queue == Later(r, tick)
    ensures transport.messagesSent == old(transport.messagesSent)
  {
    due := transport.DeliverDue(tick);
    DueSplits(r, tick, due, transport.queue);
  }

  method DeliverAll(ghost h: History, team: Team, order: seq<AgentId>, transport: SimTransport, tick: nat)
    returns (unknown: Option<AgentId>)
    requires Stages(h, team, order, transport) && Mirrors(h, tick, team, transport)
    modifies Objects(team), transport
    ensures AllValid(team) && transport.Valid()
    ensures transport.queue == Later(h.states(tick), tick) && transport.messagesSent == old(transport.messagesSent)
    ensures unknown.None? <==> !Misdelivers(h.states(tick), tick)
    ensures unknown.Some? ==> NamesStranger(h, tick, unknown.value)
    ensures unknown.None? ==> States(team) == DeliverEach(h.states(tick).agents, Due(h.states(tick), tick))
  {
    var due := TakeDue(h.states(tick), team, transport, tick);
    unknown := DeliverBatch(team, due);
  }

  /** One iteration of the loop takes the objects to the next state of the history. */
  method RunIteration(ghost h: History, team: Team, order: seq<AgentId>, transport: SimTransport, tick: nat)
    returns (unknown: Option<AgentId>)
    requires Stages(h, team, order, transport) && Mirrors(h, tick, team, transport)
    modifies Objects(team), transport
    ensures unknown.None? <==> !Misdelivers(h.states(tick), tick)
    ensures unknown.Some? ==> NamesStranger(h, tick, unknown.value)
    ensures unknown.None? ==>
              Mirrors(h, tick + 1, team, transport)
              && transport.messagesSent == old(transport.messagesSent) + CopiesIn(h, tick)
  {
    NextRound(h, tick);
    unknown := DeliverAll(h, team, order, transport, tick);
    if unknown == None {
      TickTeam(h.trial.inst, team, order, transport, tick);
    }
  }

  /** Iteration k delivers only to agents of the round and does not end quiet. */
  ghost predicate Continues(h: History, k: nat) {
    !Misdelivers(h.states(k), k) && !Quiet(h.trial.inst.config, h.states(k + 1))
  }

  /** The loop does not stop in its first k iterations. */
  ghost predicate GoesOn(h: History, k: nat) {
    forall i: nat | i < k :: Continues(h, i)
  }

  /** The loop is left by its break in iteration k: this is the first time that everything is quiet. */
  ghost predicate Ends(h: History, k: nat) {
    && GoesOn(h, k)
    && !Misdelivers(h.states(k), k)
    && Quiet(h.trial.inst.config, h.states(k + 1))
  }

  lemma OneMore(h: History, k: nat)
    requires GoesOn(h, k) && Continues(h, k)
    ensures GoesOn(h, k + 1)
  {
  }

  /** Python's `all(a.terminated ...)`. */
  method AllTerminated(team: Team, order: seq<AgentId>, ghost config: RoundConfig,
                       ghost agents: map<AgentId, AgentState>)
    returns (all: bool)
    requires agents == States(team) && Covers(order, team.Keys) && forall a | a in team :: team[a].config == config
    ensures all <==> forall a | a in agents :: Terminated(config, agents[a])
  {
    for i := 0 to |order|
      invariant forall a | a in order[..i] :: Terminated(config, agents[a])
    {
      PrefixNext(order, i);
      var ticks := team[order[i]].quiescentTicks;
      assert agents[order[i]].quiescentTicks == ticks;
      if ticks < team[order[i]].config.quiescenceRounds {
        return false;
      }
    }
    assert order[..|order|] == order;
    return true;
  }

  method IsAtRest(ghost h: History, team: Team, order: seq<AgentId>, transport: SimTransport, ghost k: nat)
    returns (rest: bool)
    requires Stages(h, team, order, transport) && Mirrors(h, k, team, transport)
    ensures rest <==> Quiet(h.trial.inst.config, h.states(k))
  {
    if transport.queue != [] {
      return false;
    }
    rest := AllTerminated(team, order, h.trial.inst.config, h.states(k).agents);
  }

  datatype Verdict = Onward | AtRest | Astray(dest: AgentId)

  /** `copies(k)` is what the first k iterations send. */
  ghost predicate Counts(h: History, copies: nat -> nat) {
    copies(0) == 0 && forall k: nat {:trigger CopiesIn(h, k)} :: copies(k + 1) == copies(k) + CopiesIn(h, k)
  }

  ghost function Copies(h: History): (copies: nat -> nat)
    ensures Counts(h, copies)
  {
    (k: nat) => CopiesUntil(h, k)
  }

  /** One iteration and the exit test. */
  method RunTick(ghost h: History, team: Team, order: seq<AgentId>, transport: SimTransport, tick: nat,
                 ghost copies: nat -> nat)
    returns (verdict: Verdict)
    requires Stages(h, team, order, transport) && Mirrors(h, tick, team, transport) && Counts(h, copies)
    modifies Objects(team), transport
    ensures verdict.Astray? <==> Misdelivers(h.states(tick), tick)
    ensures verdict.Astray? ==> NamesStranger(h, tick, verdict.dest)
    ensures !verdict.Astray? ==>
              Mirrors(h, tick + 1, team, transport)
              && transport.messagesSent + copies(tick) == old(transport.messagesSent) + copies(tick + 1)
    ensures !verdict.Astray? ==> (verdict.AtRest? <==> Quiet(h.trial.inst.config, h.states(tick + 1)))
  {
    var unknown := RunIteration(h, team, order, transport, tick);
    if unknown != None {
      return Astray(unknown.value);
    }
    var rest := IsAtRest(h, team, order, transport, tick + 1);
    return if rest then AtRest else Onward;
  }

  /** Why the loop stopped without coming to rest. */
  ghost predicate ExplainsStop(h: History, maxTicks: int, error: RoundError) {
    match error
    case DidNotTerminate => GoesOn(h, if maxTicks > 0 then maxTicks else 0)
    case UnknownDestination(dest) => exists k: nat | k < maxTicks :: GoesOn(h, k) && NamesStranger(h, k, dest)
    case _ => false
  }

  // ------------------------------------------------------ the round

  datatype RoundResult =
    RoundResult(assignment: map<AgentId, Option<TaskId>>, ticks: nat, messagesSent: nat, prices: Table)

  function TrialOf(tasks: set<TaskId>, rows: map<AgentId, Row>, config: RoundConfig, order: seq<AgentId>,
                   network: Network, backlog: seq<Packet>): Trial
  {
    Trial(Instance(tasks, rows, config), order, network, backlog)
  }

  lemma AcceptedTrialIsValid(trial: Trial)
    requires IsInput(trial.order, trial.inst.rows) && Accepts(trial.inst.rows, trial.inst.tasks)
             && Sorted(trial.backlog)
    ensures trial.Valid() && trial.order != []
  {
    var a := Sets.Pick(trial.inst.rows.Keys);
    forall a | a in trial.inst.rows ensures Over(trial.inst.rows[a], trial.inst.tasks) {
      assert TaskSet(trial.inst.rows[a]) == trial.inst.tasks;
    }
  }

  /** `prices` is the merged table of the agents that iteration k leaves behind. */
  ghost predicate MergedAt(h: History, k: nat, prices: Table) {
    AgentsTyped(h.trial.inst, h.states(k + 1).agents) && IsMerged(h.trial.inst.tasks, h.states(k + 1).agents, prices)
  }

  /** The round ends in iteration k, and every claim names its claimant in the merged prices. */
  ghost predicate ConsistentEnd(h: History, k: nat, prices: Table) {
    Ends(h, k) && MergedAt(h, k, prices) && Consistent(h.states(k + 1).agents, prices)
  }

  ghost predicate InconsistentEnd(h: History, k: nat, prices: Table) {
    Ends(h, k) && MergedAt(h, k, prices) && !Consistent(h.states(k + 1).agents, prices)
  }

  /** How the result of a round with this history comes about. */
  ghost predicate Explains(h: History, maxTicks: int, r: Result<RoundResult>) {
    match r
    case Success(result) => ExplainsSuccess(h, maxTicks, result)
    case Failure(InconsistentAssignment(a)) => ExplainsConflict(h, maxTicks, a)
    case Failure(error) => ExplainsStop(h, maxTicks, error)
  }

  /** The round ended consistently, and the result reports what its last iteration left behind. */
  ghost predicate ExplainsSuccess(h: History, maxTicks: int, result: RoundResult) {
    && result.ticks < maxTicks && ConsistentEnd(h, result.ticks, result.prices)
    && result.assignment == Assignments(h.states(result.ticks + 1).agents)
  }

  /** The round ended, and `a` is the first agent whose claim the merged prices do not confirm. */
  ghost predicate ExplainsConflict(h: History, maxTicks: int, a: AgentId) {
    exists k: nat, m :: k < maxTicks && ConflictAt(h, k, m, a)
  }

  ghost predicate ConflictAt(h: History, k: nat, m: Table, a: AgentId) {
    InconsistentEnd(h, k, m) && FirstConflict(h.states(k + 1).agents, m, h.trial.order, a)
  }

  /** The results that this history explains. */
  ghost function Outcomes(h: History, maxTicks: int): iset<Result<RoundResult>> {
    iset r | Explains(h, maxTicks, r)
  }

  lemma StopExplains(h: History, maxTicks: int, error: RoundError)
    requires ExplainsStop(h, maxTicks, error)
    ensures Failure(error) in Outcomes(h, maxTicks)
  {
  }

  lemma FinalTable(h: History, k: nat)
    requires h.trial.order != []
    ensures h.states(k + 1).agents.Keys == h.trial.inst.rows.Keys
    ensures MergedAt(h, k, MergedTable(h.states(k + 1).agents, h.trial.order))
  {
    assert TypedAt(h, k + 1);
    MergedTableIsMerged(h.trial.inst, h.states(k + 1).agents, h.trial.order);
  }

  /** `r` reports on these final agents: their claims if they are consistent, an offender otherwise. */
  ghost predicate Concludes(agents: map<AgentId, AgentState>, order: seq<AgentId>, ticks: nat, r: Result<RoundResult>)
    requires forall a | a in order :: a in agents
  {
    var m := MergedTable(agents, order);
    match r
    case Success(result) =>
      Consistent(agents, m) && result.assignment == Assignments(agents) && result.ticks == ticks && result.prices == m
    case Failure(InconsistentAssignment(a)) => !Consistent(agents, m) && FirstConflict(agents, m, order, a)
    case Failure(_) => false
  }

  lemma SuccessIsExplained(h: History, maxTicks: int, k: nat, result: RoundResult)
    requires k < maxTicks && result.ticks == k && ConsistentEnd(h, k, result.prices)
    requires result.assignment == Assignments(h.states(k + 1).agents)
    ensures Success(result) in Outcomes(h, maxTicks)
  {
    assert ExplainsSuccess(h, maxTicks, result);
  }

  lemma ConflictIsExplained(h: History, maxTicks: int, a: AgentId)
    requires ExplainsConflict(h, maxTicks, a)
    ensures Failure(InconsistentAssignment(a)) in Outcomes(h, maxTicks)
  {
    assert Explains(h, maxTicks, Failure(InconsistentAssignment(a)));
  }

  lemma ConclusionExplains(h: History, maxTicks: int, k: nat, r: Result<RoundResult>)
    requires h.trial.order != [] && k < maxTicks && Ends(h, k)
    requires h.states(k + 1).agents.Keys == h.trial.inst.rows.Keys
    requires Concludes(h.states(k + 1).agents, h.trial.order, k, r)
    ensures r in Outcomes(h, maxTicks)
  {
    FinalTable(h, k);
    match r
    case Success(result) => SuccessIsExplained(h, maxTicks, k, result);
    case Failure(InconsistentAssignment(a)) =>
      assert ConflictAt(h, k, MergedTable(h.states(k + 1).agents, h.trial.order), a);
      ConflictIsExplained(h, maxTicks, a);
  }

  /** The consistency check, then the merged prices. */
  method Conclude(team: Team, order: seq<AgentId>, transport: SimTransport, ticks: nat,
                  ghost agents: map<AgentId, AgentState>)
    returns (r: Result<RoundResult>)
    requires agents == States(team) && Covers(order, team.Keys)
    requires forall a | a in agents && agents[a].assignment.Some? ::
               agents[a].assignment.value in MergedTable(agents, order)
    ensures Concludes(agents, order, ticks, r)
    ensures r.Success? ==> r.value.messagesSent == transport.messagesSent
  {
    var checked := ConsistentAssignment(team, order, agents);
    if checked.Failure? {
      return Failure(checked.error);
    }
    var prices := MergedPrices(team, order, agents);
    return Success(RoundResult(checked.value, ticks, transport.messagesSent, prices));
  }

  lemma FinalAgents(h: History, k: nat)
    requires h.trial.order != []
    ensures var agents := h.states(k + 1).agents;
            && agents.Keys == h.trial.inst.rows.Keys
            && forall a | a in agents && agents[a].assignment.Some? ::
                 agents[a].assignment.value in MergedTable(agents, h.trial.order)
  {
    FinalTable(h, k);
  }

  method FinishRound(ghost h: History, ghost maxTicks: int, team: Team, order: seq<AgentId>, transport: SimTransport,
                     ticks: nat)
    returns (r: Result<RoundResult>)
    requires Stages(h, team, order, transport) && Mirrors(h, ticks + 1, team, transport)
    requires order != [] && ticks < maxTicks && Ends(h, ticks)
    ensures r in Outcomes(h, maxTicks)
    ensures r.Success? ==> r.value.messagesSent == transport.messagesSent && r.value.ticks == ticks
  {
    FinalAgents(h, ticks);
    r := Conclude(team, order, transport, ticks, h.states(ticks + 1).agents);
    ConclusionExplains(h, maxTicks, ticks, r);
  }

  /**
   Run iterations until everything is quiet, a packet goes astray, or the ticks
   are used up; once everything is quiet, draw the conclusion.
   */
  method RunLoop(ghost h: History, team: Team, order: seq<AgentId>, transport: SimTransport, maxTicks: int,
                 ghost copies: nat -> nat)
    returns (r: Result<RoundResult>)
    requires Stages(h, team, order, transport) && Mirrors(h, 0, team, transport) && order != [] && Counts(h, copies)
    modifies Objects(team), transport
    ensures r in Outcomes(h, maxTicks)
    ensures r.Success? ==> r.value.messagesSent == old(transport.messagesSent) + copies(r.value.ticks + 1)
  {
    var tick: nat := 0;
    while tick < maxTicks
      invariant tick == 0 || tick <= maxTicks
      invariant GoesOn(h, tick) && Mirrors(h, tick, team, transport)
      invariant transport.messagesSent == old(transport.messagesSent) + copies(tick)
    {
      var verdict := RunTick(h, team, order, transport, tick, copies);
      match verdict {
        case Astray(dest) =>
          StopExplains(h, maxTicks, UnknownDestination(dest));
          return Failure(UnknownDestination(dest));
        case AtRest =>
          assert Ends(h, tick);
          r := FinishRound(h, maxTicks, team, order, transport, tick);
          return;
        case Onward =>
      }
      OneMore(h, tick);
      tick := tick + 1;
    }
    StopExplains(h, maxTicks, DidNotTerminate);
    return Failure(DidNotTerminate);
  }

  /** Play the round on fresh agents. */
  method RunAccepted(ghost h: History, inst: Instance, order: seq<AgentId>, transport: SimTransport, maxTicks: int)
    returns (r: Result<RoundResult>)
    requires inst == h.trial.inst && order == h.trial.order && order != []
    requires transport.Valid() && transport.network == h.trial.network && transport.queue == h.trial.backlog
    modifies transport
    ensures r in Outcomes(h, maxTicks)
    ensures r.Success? ==> r.value.messagesSent == old(transport.messagesSent) + CopiesUntil(h, r.value.ticks + 1)
  {
    var team := CreateTeam(inst, order);
    r := RunLoop(h, team, order, transport, maxTicks, Copies(h));
  }

  /** What a round over these tasks comes to: its history explains the result, and every copy sent is counted. */
  ghost predicate PlaysOut(trial: Trial, sent: nat, maxTicks: int, r: Result<RoundResult>) {
    && trial.Valid() && r in Outcomes(HistoryOf(trial), maxTicks)
    && (r.Success? ==> r.value.messagesSent == sent + CopiesUntil(HistoryOf(trial), r.value.ticks + 1))
  }

  /** A round whose input was accepted. */
  method RunChecked(order: seq<AgentId>, rows: map<AgentId, Row>, tasks: set<TaskId>, transport: SimTransport,
                    config: RoundConfig, maxTicks: int)
    returns (r: Result<RoundResult>)
    requires IsInput(order, rows) && transport.Valid() && Accepts(rows, tasks)
    modifies transport
    ensures PlaysOut(TrialOf(tasks, rows, config, order, transport.network, old(transport.queue)),
                     old(transport.messagesSent), maxTicks, r)
  {
    var inst := Instance(tasks, rows, config);
    ghost var trial := TrialOf(tasks, rows, config, order, transport.network, transport.queue);
    AcceptedTrialIsValid(trial);
    r := RunAccepted(HistoryOf(trial), inst, order, transport, maxTicks);
  }

  /** One distributed auction round: its input is rejected, or its history explains the result. */
  method RunRound(order: seq<AgentId>, rows: map<AgentId, Row>, transport: SimTransport, config: RoundConfig,
                  maxTicks: int)
    returns (r: Result<RoundResult>)
    requires IsInput(order, rows) && transport.Valid()
    modifies transport
    ensures forall tasks | Accepts(rows, tasks) ::
              PlaysOut(TrialOf(tasks, rows, config, order, transport.network, old(transport.queue)),
                       old(transport.messagesSent), maxTicks, r)
    ensures (!exists tasks :: Accepts(rows, tasks)) ==> r.Failure? && Rejects(rows, r.error)
  {
    var checked := CheckInput(order, rows);
    if checked.Failure? {
      return Failure(checked.error);
    }
    r := RunChecked(order, rows, checked.value, transport, config, maxTicks);
  }
}
