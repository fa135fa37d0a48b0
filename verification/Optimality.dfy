/**
 What the invariants give at the merged price table: the holders, epsilon-
 complementary slackness, and assignments within n * epsilon of the best one.
 Tables need not agree and messages need not have arrived.
 */
module Optimality {
  import opened Types
  import opened Prices
  import opened Engine
  import opened Auction
  import opened Sums
  import opened Sets

  type Agents = map<AgentId, AgentState>

  /** `e` is the largest entry any agent has for task `t`. */
  ghost predicate IsTop(agents: Agents, t: TaskId, e: PriceEntry)
    requires forall a | a in agents :: t in agents[a].table
  {
    && (exists a | a in agents :: agents[a].table[t] == e)
    && (forall a | a in agents :: Leq(agents[a].table[t], e))
  }

  /** `m` is the entry-wise maximum of all agents' tables. */
  ghost predicate IsMerged(tasks: set<TaskId>, agents: Agents, m: Table)
    requires forall a | a in agents :: agents[a].table.Keys == tasks
  {
    m.Keys == tasks && forall t {:trigger IsTop(agents, t, m[t])} | t in tasks :: IsTop(agents, t, m[t])
  }

  /** Every claimed task names its claimant in the merged table: the consistency check of a round. */
  ghost predicate Consistent(agents: Agents, m: Table) {
    forall a | a in agents && agents[a].assignment.Some? ::
      agents[a].assignment.value in m && m[agents[a].assignment.value].bidder == a
  }

  ghost predicate AllAssigned(agents: Agents) {
    forall a | a in agents :: agents[a].assignment.Some?
  }

  /** The task each agent claims. */
  function Claims(agents: Agents): map<AgentId, TaskId>
    requires AllAssigned(agents)
  {
    map a | a in agents :: agents[a].assignment.value
  }

  /** An assignment of every agent to a task of its own. */
  ghost predicate IsAssignment(inst: Instance, f: map<AgentId, TaskId>) {
    && f.Keys == inst.rows.Keys
    && (forall a | a in f :: f[a] in inst.tasks)
    && Injective(f)
  }

  function Benefits(inst: Instance, f: map<AgentId, TaskId>): map<AgentId, real>
    requires f.Keys == inst.rows.Keys
  {
    map a | a in f :: inst.rows[a].benefit(f[a])
  }

  ghost function TotalBenefit(inst: Instance, f: map<AgentId, TaskId>): real
    requires f.Keys == inst.rows.Keys
  {
    Sum(Benefits(inst, f))
  }

  // ------------------------------------------------------------ merged table

  lemma MergedIsUnique(tasks: set<TaskId>, agents: Agents, m: Table, m': Table)
    requires forall a | a in agents :: agents[a].table.Keys == tasks
    requires IsMerged(tasks, agents, m) && IsMerged(tasks, agents, m')
    ensures m == m'
  {
    forall t | t in tasks ensures m[t] == m'[t] {
      assert IsTop(agents, t, m[t]) && IsTop(agents, t, m'[t]);
    }
  }

  /**
   A task with a positive merged price has exactly one holder: the agent it
   names claims that task and has the very same entry in its own table. Any
   other task has no bidder and price zero.
   */
  lemma HolderInvariant(inst: Instance, s: System, m: Table, t: TaskId)
    requires Invariant(inst, s) && IsMerged(inst.tasks, s.agents, m) && t in inst.tasks
    ensures m[t] == INITIAL_ENTRY
            || (&& m[t].bidder in s.agents && m[t].price >= inst.config.epsilon
                && s.agents[m[t].bidder].table[t] == m[t]
                && s.agents[m[t].bidder].assignment == Some(t))
  {
    assert IsTop(s.agents, t, m[t]);
    var a :| a in s.agents && s.agents[a].table[t] == m[t];
    assert TableKnown(inst, s, s.agents[a].table) && Known(inst, s, t, s.agents[a].table[t]);
    if m[t].bidder in s.agents {
      var b := m[t].bidder;
      assert Leq(s.agents[b].table[t], m[t]);
      assert AgentInvariant(inst, b, s.agents[b]);
    }
  }

  /** Epsilon-complementary slackness at merged prices, in every reachable state. */
  lemma SlackAtMergedPrices(inst: Instance, s: System, m: Table, a: AgentId, t: TaskId, u: TaskId)
    requires Invariant(inst, s) && IsMerged(inst.tasks, s.agents, m)
    requires a in s.agents && t in inst.tasks && u in inst.tasks && m[t].bidder == a
    ensures Net(inst.rows[a], m, t) >= Net(inst.rows[a], m, u) - inst.config.epsilon
  {
    HolderInvariant(inst, s, m, t);
    var own := s.agents[a].table;
    assert AgentInvariant(inst, a, s.agents[a]);
    assert Net(inst.rows[a], own, t) >= Net(inst.rows[a], own, u) - inst.config.epsilon;
    assert IsTop(s.agents, u, m[u]);
    assert Leq(own[u], m[u]);
  }

  /** The second check of the consistency test, two claimants of one task, can never fire. */
  lemma ConsistentClaimsAreDistinct(agents: Agents, m: Table)
    requires AllAssigned(agents) && Consistent(agents, m)
    ensures Injective(Claims(agents))
  {
    var f := Claims(agents);
    forall a, b | a in f && b in f && a != b ensures f[a] != f[b] {
      assert m[f[a]].bidder == a && m[f[b]].bidder == b;
    }
  }

  // ---------------------------------------------------------- n * epsilon

  function PriceOf(m: Table): map<TaskId, real> {
    map t | t in m :: m[t].price
  }

  /** Epsilon-complementary slackness of an assignment at given prices. */
  ghost predicate EpsilonSlack(inst: Instance, m: Table, f: map<AgentId, TaskId>)
    requires inst.Valid() && m.Keys == inst.tasks && IsAssignment(inst, f)
  {
    forall a, u | a in f && u in m :: Net(inst.rows[a], m, f[a]) >= Net(inst.rows[a], m, u) - inst.config.epsilon
  }

  /** No price is negative, and every positively priced task is assigned. */
  ghost predicate UnassignedAreFree(m: Table, f: map<AgentId, TaskId>) {
    forall t | t in m :: m[t].price >= 0.0 && (m[t].price > 0.0 ==> t in f.Values)
  }

  lemma ChoiceComparesToClaims(inst: Instance, m: Table, claims: map<AgentId, TaskId>, f: map<AgentId, TaskId>,
                               a: AgentId)
    requires inst.Valid() && m.Keys == inst.tasks
    requires IsAssignment(inst, claims) && IsAssignment(inst, f)
    requires EpsilonSlack(inst, m, claims) && a in f
    ensures Benefits(inst, f)[a] - Collect(f, PriceOf(m))[a]
            <= Benefits(inst, claims)[a] - Collect(claims, PriceOf(m))[a] + inst.config.epsilon
  {
    assert Net(inst.rows[a], m, claims[a]) >= Net(inst.rows[a], m, f[a]) - inst.config.epsilon;
  }

  lemma NetTotalsCompare(inst: Instance, m: Table, claims: map<AgentId, TaskId>, f: map<AgentId, TaskId>)
    requires inst.Valid() && m.Keys == inst.tasks
    requires IsAssignment(inst, claims) && IsAssignment(inst, f)
    requires EpsilonSlack(inst, m, claims)
    ensures TotalBenefit(inst, f) - Sum(Collect(f, PriceOf(m)))
            <= TotalBenefit(inst, claims) - Sum(Collect(claims, PriceOf(m))) + Times(|inst.rows|, inst.config.epsilon)
  {
    var value, value' := Benefits(inst, f), Benefits(inst, claims);
    var cost, cost' := Collect(f, PriceOf(m)), Collect(claims, PriceOf(m));
    forall a | a in value
      ensures value[a] - cost[a] <= value'[a] - cost'[a] + inst.config.epsilon
    {
      ChoiceComparesToClaims(inst, m, claims, f, a);
    }
    assert value.Keys == inst.rows.Keys;
    NetSumsCompare(value, cost, value', cost', inst.config.epsilon);
  }

  lemma CollectedPricesCompare(m: Table, claims: map<AgentId, TaskId>, f: map<AgentId, TaskId>)
    requires UnassignedAreFree(m, claims) && Injective(claims) && Injective(f)
    requires (forall a | a in claims :: claims[a] in m) && (forall a | a in f :: f[a] in m)
    ensures Sum(Collect(f, PriceOf(m))) <= Sum(Collect(claims, PriceOf(m)))
  {
    var prices := PriceOf(m);
    assert forall a | a in f :: f[a] in prices;
    assert forall a | a in claims :: claims[a] in prices;
    assert forall t | t in prices :: prices[t] >= 0.0;
    InjectiveCollects(f, prices);
    InjectiveCollects(claims, prices);
  }

  /** The duality argument: slackness plus free unassigned tasks bound every rival assignment. */
  lemma SlackImpliesNearOptimal(inst: Instance, m: Table, claims: map<AgentId, TaskId>, f: map<AgentId, TaskId>)
    requires inst.Valid() && m.Keys == inst.tasks
    requires IsAssignment(inst, claims) && IsAssignment(inst, f)
    requires EpsilonSlack(inst, m, claims) && UnassignedAreFree(m, claims)
    ensures TotalBenefit(inst, claims) >= TotalBenefit(inst, f) - Times(|inst.rows|, inst.config.epsilon)
  {
    NetTotalsCompare(inst, m, claims, f);
    CollectedPricesCompare(m, claims, f);
  }

  lemma ClaimsLeaveFreeTasks(inst: Instance, s: System, m: Table)
    requires Invariant(inst, s) && IsMerged(inst.tasks, s.agents, m)
    requires AllAssigned(s.agents)
    ensures UnassignedAreFree(m, Claims(s.agents))
  {
    var claims := Claims(s.agents);
    forall t | t in m ensures m[t].price >= 0.0 && (m[t].price > 0.0 ==> t in claims.Values) {
      HolderInvariant(inst, s, m, t);
      if m[t].price > 0.0 {
        assert claims[m[t].bidder] == t;
      }
    }
  }

  lemma ClaimsAreAssignment(inst: Instance, s: System, m: Table)
    requires Typed(inst, s) && AllAssigned(s.agents) && Consistent(s.agents, m)
    ensures IsAssignment(inst, Claims(s.agents))
  {
    ConsistentClaimsAreDistinct(s.agents, m);
  }

  /** The claims of a consistent state satisfy slackness. */
  lemma ConsistentClaimsHaveSlack(inst: Instance, s: System, m: Table)
    requires Invariant(inst, s) && IsMerged(inst.tasks, s.agents, m)
    requires AllAssigned(s.agents) && Consistent(s.agents, m)
    ensures IsAssignment(inst, Claims(s.agents))
    ensures EpsilonSlack(inst, m, Claims(s.agents))
  {
    var claims := Claims(s.agents);
    ClaimsAreAssignment(inst, s, m);
    forall a, u | a in claims && u in m
      ensures Net(inst.rows[a], m, claims[a]) >= Net(inst.rows[a], m, u) - inst.config.epsilon
    {
      SlackAtMergedPrices(inst, s, m, a, claims[a], u);
    }
  }

  /**
   A round that passes the consistency check is within n * epsilon of every
   assignment, whatever the network did and whether or not the tables agree.
   */
  lemma WithinNEpsilonOfOptimal(inst: Instance, s: System, m: Table, f: map<AgentId, TaskId>)
    requires Invariant(inst, s) && IsMerged(inst.tasks, s.agents, m)
    requires AllAssigned(s.agents) && Consistent(s.agents, m)
    requires IsAssignment(inst, f)
    ensures IsAssignment(inst, Claims(s.agents))
    ensures TotalBenefit(inst, Claims(s.agents))
            >= TotalBenefit(inst, f) - Times(|inst.rows|, inst.config.epsilon)
  {
    ConsistentClaimsHaveSlack(inst, s, m);
    ClaimsLeaveFreeTasks(inst, s, m);
    SlackImpliesNearOptimal(inst, m, Claims(s.agents), f);
  }

  // ------------------------------------------------------------- exactness

  ghost predicate IsInteger(x: real) {
    x == x.Floor as real
  }

  lemma {:induction false} IntegerSum<K>(m: map<K, real>)
    requires forall k | k in m :: IsInteger(m[k])
    ensures IsInteger(Sum(m))
    decreases |m|
  {
    if m.Keys == {} {
      assert m == map[];
    } else {
      var k := Pick(m.Keys);
      SumRemove(m, k);
      assert (m - {k}).Keys == m.Keys - {k};
      IntegerSum(m - {k});
      IntegerAdd(m[k], Sum(m - {k}));
    }
  }

  lemma IntegerAdd(x: real, y: real)
    requires IsInteger(x) && IsInteger(y)
    ensures IsInteger(x + y)
  {
    assert x + y == (x.Floor + y.Floor) as real;
  }

  lemma IntegerGap(i: int, j: int, gap: real)
    requires i as real >= j as real - gap && gap < 1.0
    ensures i >= j
  {
    assert i as real - j as real == (i - j) as real;
  }

  lemma IntegerTotal(inst: Instance, f: map<AgentId, TaskId>)
    requires inst.Valid() && IsAssignment(inst, f)
    requires forall a, t | a in inst.rows && t in inst.tasks :: IsInteger(inst.rows[a].benefit(t))
    ensures IsInteger(TotalBenefit(inst, f))
  {
    var benefits := Benefits(inst, f);
    assert forall a | a in benefits :: IsInteger(benefits[a]);
    IntegerSum(benefits);
  }

  /** With integer benefits and n * epsilon < 1 the round attains the true maximum. */
  lemma ExactForIntegers(inst: Instance, s: System, m: Table, f: map<AgentId, TaskId>)
    requires Invariant(inst, s) && IsMerged(inst.tasks, s.agents, m)
    requires AllAssigned(s.agents) && Consistent(s.agents, m)
    requires IsAssignment(inst, f)
    requires forall a, t | a in inst.rows && t in inst.tasks :: IsInteger(inst.rows[a].benefit(t))
    requires Times(|inst.rows|, inst.config.epsilon) < 1.0
    ensures IsAssignment(inst, Claims(s.agents))
    ensures TotalBenefit(inst, Claims(s.agents)) >= TotalBenefit(inst, f)
  {
    WithinNEpsilonOfOptimal(inst, s, m, f);
    var claims := Claims(s.agents);
    IntegerTotal(inst, f);
    IntegerTotal(inst, claims);
    var gap := Times(|inst.rows|, inst.config.epsilon);
    IntegerGap(TotalBenefit(inst, claims).Floor, TotalBenefit(inst, f).Floor, gap);
  }

  // ------------------------------------------------------------ over all runs

  lemma StepAssigns(inst: Instance, s: System, step: Step, a: AgentId)
    requires Typed(inst, s) && Enabled(s, step) && a in s.agents
    ensures Apply(inst, s, step).agents[a].assignment.Some? <==> s.agents[a].assignment.Some? || step == Tick(a)
  {
  }

  /** An agent that has ticked once is assigned for the rest of the run. */
  lemma {:induction false} TickedAgentsAreAssigned(inst: Instance, run: seq<Step>, a: AgentId)
    requires inst.Valid() && IsRun(inst, run) && a in inst.rows
    ensures Execute(inst, run).agents[a].assignment.Some? <==> Tick(a) in run
  {
    if run != [] {
      var before, last := run[..|run| - 1], run[|run| - 1];
      TickedAgentsAreAssigned(inst, before, a);
      StepAssigns(inst, Execute(inst, before), last, a);
      assert run == before + [last];
    }
  }

  /** The headline guarantee, for every run of every instance and every rival assignment. */
  lemma EveryConsistentRunIsNearOptimal(inst: Instance, run: seq<Step>, m: Table, f: map<AgentId, TaskId>)
    requires inst.Valid() && IsRun(inst, run)
    requires forall a | a in inst.rows :: Tick(a) in run
    requires var s := Execute(inst, run);
             IsMerged(inst.tasks, s.agents, m) && Consistent(s.agents, m)
    requires IsAssignment(inst, f)
    ensures var s := Execute(inst, run);
            && AllAssigned(s.agents)
            && IsAssignment(inst, Claims(s.agents))
            && TotalBenefit(inst, Claims(s.agents))
               >= TotalBenefit(inst, f) - Times(|inst.rows|, inst.config.epsilon)
  {
    forall a | a in inst.rows ensures Execute(inst, run).agents[a].assignment.Some? {
      TickedAgentsAreAssigned(inst, run, a);
    }
    EveryRunKeepsInvariant(inst, run);
    WithinNEpsilonOfOptimal(inst, Execute(inst, run), m, f);
  }
}
