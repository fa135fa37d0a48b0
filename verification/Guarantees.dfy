/**
 What a caller of `RunRound` may rely on: `Explains` relates a result to the
 history of its round, and these results follow from that relation alone.
 */
module Guarantees {
  import opened Types
  import opened Engine
  import opened Auction
  import opened Transport
  import opened Rounds
  import opened Optimality
  import opened Sums
  import Sets
  import opened Agreement
  import opened Distances
  import opened Topologies
  import opened Refinement
  import opened Harness
  import opened EventLoop
  import opened Termination

  // ------------------------------------------------------ the assignment is near optimal

  /** The tasks in a result's assignment. */
  function Chosen(result: RoundResult): map<AgentId, TaskId> {
    map a | a in result.assignment && result.assignment[a].Some? :: result.assignment[a].value
  }

  lemma ChosenAreClaims(agents: map<AgentId, AgentState>, result: RoundResult)
    requires AllAssigned(agents) && result.assignment == Assignments(agents)
    ensures Chosen(result) == Claims(agents)
  {
  }

  /** With every agent assigned, the result reports the final agents' claims. */
  lemma ResultReportsClaims(h: History, maxTicks: int, result: RoundResult, agents: map<AgentId, AgentState>)
    requires Explains(h, maxTicks, Success(result)) && agents == h.states(result.ticks + 1).agents
    requires AllAssigned(agents)
    ensures AgentsTyped(h.trial.inst, agents) && IsMerged(h.trial.inst.tasks, agents, result.prices)
    ensures Consistent(agents, result.prices) && Chosen(result) == Claims(agents)
  {
    ChosenAreClaims(agents, result);
  }

  lemma FinalAgentsAreAssigned(h: History, k: nat)
    requires forall a | a in h.trial.inst.rows :: AgentAt(h, k, a).assignment.Some?
    ensures AgentsTyped(h.trial.inst, h.states(k).agents) && AllAssigned(h.states(k).agents)
  {
    assert TypedAt(h, k);
    forall a | a in h.states(k).agents ensures h.states(k).agents[a].assignment.Some? {
      assert AgentAt(h, k, a).assignment.Some?;
    }
  }

  /** The final agents of a successful round, all of them assigned, in a state that satisfies every invariant. */
  lemma FinalState(h: History, maxTicks: int, result: RoundResult) returns (s: System)
    requires h.trial.backlog == [] && Explains(h, maxTicks, Success(result))
    ensures Invariant(h.trial.inst, s) && IsMerged(h.trial.inst.tasks, s.agents, result.prices)
    ensures AllAssigned(s.agents) && Consistent(s.agents, result.prices)
    ensures Chosen(result) == Claims(s.agents)
  {
    s := RoundInvariant(h, result.ticks + 1);
    FinalAgentsAreAssigned(h, result.ticks + 1);
    ResultReportsClaims(h, maxTicks, result, s.agents);
  }

  /**
   Every agent gets a task of its own, and no assignment is better by more than
   n * epsilon: over every loss pattern, delay and topology.
   */
  lemma SuccessIsNearOptimal(h: History, maxTicks: int, result: RoundResult, f: map<AgentId, TaskId>)
    requires h.trial.backlog == [] && Explains(h, maxTicks, Success(result))
    requires IsAssignment(h.trial.inst, f)
    ensures IsAssignment(h.trial.inst, Chosen(result))
    ensures TotalBenefit(h.trial.inst, Chosen(result))
            >= TotalBenefit(h.trial.inst, f) - Times(|h.trial.inst.rows|, h.trial.inst.config.epsilon)
  {
    var s := FinalState(h, maxTicks, result);
    WithinNEpsilonOfOptimal(h.trial.inst, s, result.prices, f);
  }

  /** With integer benefits and n * epsilon < 1 the assignment is a best one. */
  lemma SuccessIsOptimalForIntegers(h: History, maxTicks: int, result: RoundResult, f: map<AgentId, TaskId>)
    requires h.trial.backlog == [] && Explains(h, maxTicks, Success(result))
    requires IsAssignment(h.trial.inst, f)
    requires forall a, t | a in h.trial.inst.rows && t in h.trial.inst.tasks ::
               IsInteger(h.trial.inst.rows[a].benefit(t))
    requires Times(|h.trial.inst.rows|, h.trial.inst.config.epsilon) < 1.0
    ensures IsAssignment(h.trial.inst, Chosen(result))
    ensures TotalBenefit(h.trial.inst, Chosen(result)) >= TotalBenefit(h.trial.inst, f)
  {
    var s := FinalState(h, maxTicks, result);
    ExactForIntegers(h.trial.inst, s, result.prices, f);
  }

  // ------------------------------------------------------ lossless rounds agree

  /** The consistency check cannot fail on a lossless static connected topology. */
  lemma LosslessRoundsAreConsistent(h: History, maxTicks: int, r: Result<RoundResult>, topology: Topology)
    requires Explains(h, maxTicks, r)
    requires LosslessStatic(h.trial.network, topology) && Within(h.trial.inst, topology)
    requires Connected(h.trial.inst, topology)
    ensures !(r.Failure? && r.error.InconsistentAssignment?)
  {
    if r.Failure? && r.error.InconsistentAssignment? {
      assert ExplainsConflict(h, maxTicks, r.error.agent);
      var k: nat, m :| k < maxTicks && ConflictAt(h, k, m, r.error.agent);
      QuietMeansAgreement(h, topology, k + 1, m);
      assert false;
    }
  }

  // ------------------------------------------------------ nothing goes astray

  /** At no tick does a link lead out of the round. */
  ghost predicate LinksWithin(inst: Instance, network: Network) {
    forall now: nat, a, b | a in inst.rows && b in Neighbours(network, now, a) :: b in inst.rows
  }

  ghost predicate Homebound(inst: Instance, queue: seq<Packet>) {
    forall p | p in queue :: p.dest in inst.rows
  }

  lemma NextHomebound(h: History, k: nat)
    requires LinksWithin(h.trial.inst, h.trial.network) && Homebound(h.trial.inst, h.states(k).queue)
    ensures Homebound(h.trial.inst, h.states(k + 1).queue)
  {
    forall p | p in h.states(k + 1).queue ensures p.dest in h.trial.inst.rows {
      NextQueue(h, k, p);
    }
  }

  lemma NothingGoesAstray(h: History, k: nat)
    requires h.trial.backlog == [] && LinksWithin(h.trial.inst, h.trial.network)
    ensures !Misdelivers(h.states(k), k)
  {
    for i := 0 to k
      invariant Homebound(h.trial.inst, h.states(i).queue)
    {
      NextHomebound(h, i);
    }
    assert TypedAt(h, k);
    forall p | p in Due(h.states(k), k) ensures p.dest in h.trial.inst.rows {
      LaterMembers(h.states(k), k, p);
    }
  }

  // ------------------------------------------------------ the loop ends

  /** The first quiet state at or before k. */
  lemma FirstEnd(h: History, k: nat) returns (first: nat)
    requires h.trial.backlog == [] && LinksWithin(h.trial.inst, h.trial.network)
    requires Quiet(h.trial.inst.config, h.states(k + 1))
    ensures first <= k && Ends(h, first)
  {
    first := 0;
    NothingGoesAstray(h, first);
    while !Quiet(h.trial.inst.config, h.states(first + 1))
      invariant first <= k && GoesOn(h, first) && !Misdelivers(h.states(first), first)
      decreases k - first
    {
      assert first != k;
      OneMore(h, first);
      first := first + 1;
      NothingGoesAstray(h, first);
    }
  }

  /** A round has one end. */
  lemma EndIsUnique(h: History, i: nat, j: nat)
    requires Ends(h, i) && Ends(h, j)
    ensures i == j
  {
    assert i < j ==> Continues(h, i);
    assert j < i ==> Continues(h, j);
  }

  /** A round in which a packet goes astray before any end has no end. */
  lemma AstrayRoundsNeverEnd(h: History, k: nat, dest: AgentId, end: nat)
    requires GoesOn(h, k) && NamesStranger(h, k, dest)
    ensures !Ends(h, end)
  {
    assert TypedAt(h, k);
    assert Misdelivers(h.states(k), k) && !Continues(h, k);
    assert end < k ==> Continues(h, end);
  }

  lemma MergedAtIsUnique(h: History, k: nat, m: Table, m': Table)
    requires MergedAt(h, k, m) && MergedAt(h, k, m')
    ensures m == m'
  {
    MergedIsUnique(h.trial.inst.tasks, h.states(k + 1).agents, m, m');
  }

  lemma SameEndOneVerdict(h: History, k: nat, prices: Table, m: Table)
    requires MergedAt(h, k, prices) && Consistent(h.states(k + 1).agents, prices)
    ensures !InconsistentEnd(h, k, m)
  {
    if MergedAt(h, k, m) {
      MergedAtIsUnique(h, k, prices, m);
    }
  }

  /** A round that ends consistently does not end inconsistently as well. */
  lemma OneVerdict(h: History, end: nat, prices: Table, k: nat, m: Table)
    requires ConsistentEnd(h, end, prices)
    ensures !InconsistentEnd(h, k, m)
  {
    SameEndOneVerdict(h, end, prices, m);
    if Ends(h, k) {
      EndIsUnique(h, end, k);
    }
  }

  lemma EndedRoundsWereNotStopped(h: History, end: nat, maxTicks: int, error: RoundError)
    requires Ends(h, end) && end < maxTicks
    ensures !ExplainsStop(h, maxTicks, error)
  {
    match error
    case UnknownDestination(dest) =>
      forall k: nat | k < maxTicks && GoesOn(h, k) ensures !NamesStranger(h, k, dest) {
        if NamesStranger(h, k, dest) {
          AstrayRoundsNeverEnd(h, k, dest, end);
        }
      }
    case DidNotTerminate => assert !Continues(h, end);
    case _ =>
  }

  /** With ticks left, a round that ends consistently is not reported as failed. */
  lemma ConsistentEndSucceeds(h: History, end: nat, prices: Table, maxTicks: int, r: Result<RoundResult>)
    requires ConsistentEnd(h, end, prices) && end < maxTicks && Explains(h, maxTicks, r)
    ensures r.Success?
  {
    if r.Failure? {
      EndedRoundsWereNotStopped(h, end, maxTicks, r.error);
      forall k: nat, m ensures !InconsistentEnd(h, k, m) {
        OneVerdict(h, end, prices, k, m);
      }
    }
  }

  lemma SuccessReports(h: History, maxTicks: int, result: RoundResult)
    requires Explains(h, maxTicks, Success(result))
    ensures ConsistentEnd(h, result.ticks, result.prices)
  {
  }

  lemma SuccessAssigns(h: History, maxTicks: int, result: RoundResult, end: nat)
    requires Explains(h, maxTicks, Success(result)) && end == result.ticks
    ensures result.assignment == Assignments(h.states(end + 1).agents)
  {
  }

  lemma SuccessReportsEnd(h: History, maxTicks: int, result: RoundResult, end: nat, prices: Table)
    requires Explains(h, maxTicks, Success(result)) && Ends(h, end) && MergedAt(h, end, prices)
    ensures result.ticks == end && result.prices == prices
  {
    SuccessReports(h, maxTicks, result);
    EndIsUnique(h, result.ticks, end);
    MergedAtIsUnique(h, end, result.prices, prices);
  }

  /** Raising the limit does not change the outcome of a round that finished. */
  lemma MoreTicksSameResult(h: History, maxTicks: int, result: RoundResult, maxTicks': int, r: Result<RoundResult>)
    requires Explains(h, maxTicks, Success(result)) && Explains(h, maxTicks', r)
    requires maxTicks <= maxTicks'
    ensures r.Success? && r.value.ticks == result.ticks && r.value.assignment == result.assignment
            && r.value.prices == result.prices
  {
    SuccessReports(h, maxTicks, result);
    ConsistentEndSucceeds(h, result.ticks, result.prices, maxTicks', r);
    SuccessReportsEnd(h, maxTicks', r.value, result.ticks, result.prices);
    SuccessAssigns(h, maxTicks, result, result.ticks);
    SuccessAssigns(h, maxTicks', r.value, result.ticks);
  }

  /**
   Enough ticks always suffice: for each round there is a bound from which on
   `RunRound` never reports that it did not terminate, whatever is lost and
   however long anything is delayed.
   */
  lemma EnoughTicksSuffice(h: History) returns (bound: nat)
    requires h.trial.backlog == [] && |h.trial.inst.rows| <= |h.trial.inst.tasks|
    ensures forall maxTicks: int, r | maxTicks >= bound && Explains(h, maxTicks, r) :: r != Failure(DidNotTerminate)
  {
    bound := EveryRoundComesToRest(h);
    forall maxTicks: int, r | maxTicks >= bound && Explains(h, maxTicks, r) ensures r != Failure(DidNotTerminate) {
      assert !Continues(h, bound - 1);
    }
  }

  // ------------------------------------------------------ lossless rounds succeed

  lemma StaticLinksWithin(inst: Instance, network: Network, topology: Topology)
    requires LosslessStatic(network, topology) && Within(inst, topology)
    ensures LinksWithin(inst, network)
  {
    forall now: nat, a, b | a in inst.rows && b in Neighbours(network, now, a) ensures b in inst.rows {
      assert network.topology(now) == topology;
      assert Edge(topology, a, b);
    }
  }

  /** After iteration k all agents have these prices. */
  ghost predicate AgreedAt(h: History, k: nat, prices: Table) {
    forall a | a in h.trial.inst.rows :: TableAt(h, k + 1, a) == prices
  }

  /**
   Total correctness on a lossless static connected topology: given enough
   ticks `RunRound` returns an assignment, and by then all agents agree on the
   prices it reports.
   */
  lemma LosslessRoundsSucceed(h: History, topology: Topology) returns (bound: nat)
    requires h.trial.backlog == [] && 0 < |h.trial.inst.rows| <= |h.trial.inst.tasks|
    requires LosslessStatic(h.trial.network, topology) && Within(h.trial.inst, topology)
    requires Connected(h.trial.inst, topology)
    ensures forall maxTicks: int, r | maxTicks >= bound && Explains(h, maxTicks, r) ::
              r.Success? && AgreedAt(h, r.value.ticks, r.value.prices)
  {
    StaticLinksWithin(h.trial.inst, h.trial.network, topology);
    var k := EveryRoundComesToRest(h);
    var end := FirstEnd(h, k - 1);
    bound := end + 1;
    forall maxTicks: int, r | maxTicks >= bound && Explains(h, maxTicks, r)
      ensures r.Success? && AgreedAt(h, r.value.ticks, r.value.prices)
    {
      LosslessRoundSucceeds(h, topology, end, maxTicks, r);
    }
  }

  lemma LosslessEndAgrees(h: History, topology: Topology, end: nat) returns (m: Table)
    requires 0 < |h.trial.inst.rows| && Ends(h, end)
    requires LosslessStatic(h.trial.network, topology) && Within(h.trial.inst, topology)
    requires Connected(h.trial.inst, topology)
    ensures MergedAt(h, end, m) && Consistent(h.states(end + 1).agents, m)
    ensures AgreedAt(h, end, m)
  {
    assert h.trial.order != [] by {
      var a := Sets.Pick(h.trial.inst.rows.Keys);
    }
    FinalTable(h, end);
    m := MergedTable(h.states(end + 1).agents, h.trial.order);
    QuietMeansAgreement(h, topology, end + 1, m);
    forall a | a in h.trial.inst.rows ensures TableAt(h, end + 1, a) == m {
      AgentsAt(h, end + 1, a);
    }
  }

  lemma LosslessRoundSucceeds(h: History, topology: Topology, end: nat, maxTicks: int, r: Result<RoundResult>)
    requires 0 < |h.trial.inst.rows| && Ends(h, end) && end < maxTicks && Explains(h, maxTicks, r)
    requires LosslessStatic(h.trial.network, topology) && Within(h.trial.inst, topology)
    requires Connected(h.trial.inst, topology)
    ensures r.Success? && AgreedAt(h, r.value.ticks, r.value.prices)
  {
    var m := LosslessEndAgrees(h, topology, end);
    ConsistentEndSucceeds(h, end, m, maxTicks, r);
    SuccessReportsEnd(h, maxTicks, r.value, end, m);
  }

  // ------------------------------------------------------ topologies over the agents of a round

  /** A topology whose nodes are the agents of the round fits it exactly when the diameter of it is defined. */
  lemma RoundTopology(inst: Instance, topology: Topology)
    requires topology.Keys == inst.rows.Keys
    ensures Within(inst, topology) <==> Closed(topology)
    ensures Connected(inst, topology) <==> StronglyConnected(topology)
  {
    if Closed(topology) {
      forall a, b | Edge(topology, a, b) ensures a in inst.rows && b in inst.rows {
        assert b in topology;
      }
    }
  }

  /**
   Any topology over the agents that `ComputeDiameter` accepts, or that `Line`,
   `Complete` or `RandomConnected` builds, carries a lossless round to success.
   */
  lemma RoundsOverAcceptedTopologiesSucceed(h: History, topology: Topology) returns (bound: nat)
    requires h.trial.backlog == [] && 0 < |h.trial.inst.rows| <= |h.trial.inst.tasks|
    requires LosslessStatic(h.trial.network, topology) && topology.Keys == h.trial.inst.rows.Keys
    requires Closed(topology) && StronglyConnected(topology)
    ensures forall maxTicks: int, r | maxTicks >= bound && Explains(h, maxTicks, r) ::
              r.Success? && AgreedAt(h, r.value.ticks, r.value.prices)
  {
    RoundTopology(h.trial.inst, topology);
    bound := LosslessRoundsSucceed(h, topology);
  }

  /** So does the complete topology over the agents, the one the simulators use unless told otherwise. */
  lemma RoundsOverCompleteTopologiesSucceed(h: History) returns (bound: nat)
    requires h.trial.backlog == [] && 0 < |h.trial.inst.rows| <= |h.trial.inst.tasks|
    requires LosslessStatic(h.trial.network, Complete(h.trial.order))
    ensures forall maxTicks: int, r | maxTicks >= bound && Explains(h, maxTicks, r) ::
              r.Success? && AgreedAt(h, r.value.ticks, r.value.prices)
  {
    CompleteDiameter(h.trial.order);
    assert Elements(h.trial.order) == h.trial.inst.rows.Keys;
    bound := RoundsOverAcceptedTopologiesSucceed(h, Complete(h.trial.order));
  }
}
