/**
 What a round offers: the available tasks padded with idle slots, the contract
 of the round runner, how many tasks a settled round dispatches, and auction
 rounds as a runner that meets the contract.
 */
module RoundOffers {
  import opened Types
  import opened Sets
  import opened Sums
  import opened Auction
  import opened Transport
  import opened Rounds
  import opened Optimality
  import opened EventLoop
  import opened Guarantees
  import opened Agreement
  import opened Topologies
  import opened Termination
  import Harness

  // ------------------------------------------------------ the offer of a round

  /** Ids of the idle slots: -1, -2, and so on. */
  function Sentinels(n: nat): (s: seq<TaskId>)
    ensures |s| == n && NoDuplicates(s) && forall t | t in s :: t < 0
  {
    seq(n, k => -1 - k)
  }

  function Smallest(row: Row, k: nat): real
    requires 0 < k <= |row.order|
  {
    var x := row.benefit(row.order[k - 1]);
    if k == 1 || x < Smallest(row, k - 1) then x else Smallest(row, k - 1)
  }

  lemma {:induction false} SmallestIsLeast(row: Row, k: nat)
    requires 0 < k <= |row.order|
    ensures forall j | 0 <= j < k :: Smallest(row, k) <= row.benefit(row.order[j])
    ensures exists j | 0 <= j < k :: Smallest(row, k) == row.benefit(row.order[j])
  {
    assert k == 1 ==> Smallest(row, k) == row.benefit(row.order[0]);
    if k > 1 {
      SmallestIsLeast(row, k - 1);
      assert Smallest(row, k) == row.benefit(row.order[k - 1]) || Smallest(row, k) == Smallest(row, k - 1);
    }
  }

  /** What an idle slot is worth: 1 less than the least of the real tasks. */
  function Floor(row: Row): real
    requires row.order != []
  {
    Smallest(row, |row.order|) - 1.0
  }

  /** The row with `deficit` idle slots. */
  ghost predicate IsPadded(row: Row, deficit: nat, padded: Row) {
    && row.order != [] && padded.order == row.order + Sentinels(deficit)
    && (forall t | t in row.order :: padded.benefit(t) == row.benefit(t))
    && (forall s | s in Sentinels(deficit) :: padded.benefit(s) == Floor(row))
  }

  /** `x` is 1 less than the least benefit of a real task. */
  ghost predicate IsOneBelow(row: Row, x: real) {
    (forall t | t in row.order :: x <= row.benefit(t) - 1.0) && exists t :: t in row.order && x == row.benefit(t) - 1.0
  }

  lemma FloorIsOneBelow(row: Row)
    requires row.order != []
    ensures IsOneBelow(row, Floor(row))
  {
    SmallestIsLeast(row, |row.order|);
  }

  /** Idle slots are worth less than every real task, by 1 or more. */
  lemma SlotsAreWorthLess(row: Row, deficit: nat, padded: Row, s: TaskId, t: TaskId)
    requires IsPadded(row, deficit, padded) && s in Sentinels(deficit) && t in row.order
    ensures padded.benefit(s) <= padded.benefit(t) - 1.0
  {
    FloorIsOneBelow(row);
  }

  /** The padded row, as a function. */
  function PaddedRow(row: Row, deficit: nat): Row
    requires row.order != []
  {
    Row(row.order + Sentinels(deficit), t => if t < 0 then Floor(row) else row.benefit(t))
  }

  lemma PaddedRowIsPadded(row: Row, deficit: nat)
    requires row.order != [] && forall t | t in row.order :: t >= 0
    ensures IsPadded(row, deficit, PaddedRow(row, deficit))
  {
  }

  method PadRow(row: Row, deficit: nat) returns (padded: Row)
    requires row.order != [] && forall t | t in row.order :: t >= 0
    ensures IsPadded(row, deficit, padded)
    ensures forall s | s in Sentinels(deficit) :: IsOneBelow(row, padded.benefit(s))
  {
    FloorIsOneBelow(row);
    var floor := Floor(row);
    var order := row.order;
    for k := 0 to deficit
      invariant order == row.order + Sentinels(k)
    {
      order := order + [-1 - k];
      assert Sentinels(k + 1) == Sentinels(k) + [-1 - k];
    }
    padded := Row(order, t => if t < 0 then floor else row.benefit(t));
  }

  /** What is offered in a round: the available tasks, and idle slots for surplus robots. */
  ghost function Offered(available: seq<TaskId>, deficit: nat): set<TaskId> {
    Elements(available) + Elements(Sentinels(deficit))
  }

  function Deficit(idle: seq<AgentId>, available: seq<TaskId>): nat {
    if |idle| > |available| then |idle| - |available| else 0
  }

  ghost predicate IsOffer(idle: seq<AgentId>, available: seq<TaskId>, benefit: (AgentId, TaskId) -> real,
                          rows: map<AgentId, Row>)
  {
    && (forall r :: r in rows <==> r in idle)
    && forall r | r in rows :: OffersTo(idle, available, benefit, r, rows[r])
  }

  /** What the available tasks are worth to robot `r`. */
  function OwnRow(available: seq<TaskId>, benefit: (AgentId, TaskId) -> real, r: AgentId): Row {
    Row(available, t => benefit(r, t))
  }

  ghost predicate OffersTo(idle: seq<AgentId>, available: seq<TaskId>, benefit: (AgentId, TaskId) -> real, r: AgentId,
                           row: Row)
  {
    IsPadded(OwnRow(available, benefit, r), Deficit(idle, available), row)
  }

  /** The frozen benefits of the round, padded so that there are at least as many tasks as robots. */
  method RoundBenefits(idle: seq<AgentId>, available: seq<TaskId>, benefit: (AgentId, TaskId) -> real)
    returns (rows: map<AgentId, Row>)
    requires available != [] && forall t | t in available :: t >= 0
    ensures IsOffer(idle, available, benefit, rows)
  {
    rows := map[];
    for i := 0 to |idle|
      invariant forall r :: r in rows <==> r in idle[..i]
      invariant forall r | r in rows :: OffersTo(idle, available, benefit, r, rows[r])
    {
      var r := idle[i];
      var row := PadRow(OwnRow(available, benefit, r), Deficit(idle, available));
      assert idle[..i + 1] == idle[..i] + [r];
      rows := rows[r := row];
    }
    assert idle[..|idle|] == idle;
  }

  /** The instance the runner is given: the padded offer. */
  ghost function OfferedInstance(idle: seq<AgentId>, available: seq<TaskId>, rows: map<AgentId, Row>,
                                 config: RoundConfig): Instance
  {
    Instance(Offered(available, Deficit(idle, available)), rows, config)
  }

  lemma OfferedCardinality(available: seq<TaskId>, deficit: nat)
    requires NoDuplicates(available) && forall t | t in available :: t >= 0
    ensures |Offered(available, deficit)| == |available| + deficit
  {
    ElementsCardinality(available);
    ElementsCardinality(Sentinels(deficit));
    Partition(Offered(available, deficit), Elements(available), Elements(Sentinels(deficit)));
  }

  lemma PaddedRowIsOffered(available: seq<TaskId>, row: Row, deficit: nat, padded: Row)
    requires row.order == available && IsPadded(row, deficit, padded)
    requires NoDuplicates(available) && forall t | t in available :: t >= 0
    ensures NoDuplicates(padded.order) && TaskSet(padded) == Offered(available, deficit)
  {
    forall i, j | 0 <= i < j < |padded.order| ensures padded.order[i] != padded.order[j] {
      if i < |available| <= j {
        assert padded.order[i] in available && padded.order[j] in Sentinels(deficit);
      }
    }
  }

  /** The offer meets what a round requires of its input. */
  lemma OfferIsAccepted(idle: seq<AgentId>, available: seq<TaskId>, benefit: (AgentId, TaskId) -> real,
                        rows: map<AgentId, Row>)
    requires IsOffer(idle, available, benefit, rows) && idle != []
    requires NoDuplicates(idle) && NoDuplicates(available)
    requires (forall t | t in available :: t >= 0) && forall r | r in idle :: r >= 0
    ensures IsInput(idle, rows) && Accepts(rows, Offered(available, Deficit(idle, available)))
  {
    OfferedCardinality(available, Deficit(idle, available));
    ElementsCardinality(idle);
    assert rows.Keys == Elements(idle);
    assert |rows| == |rows.Keys|;
    assert idle[0] in rows;
    forall r | r in rows
      ensures NoDuplicates(rows[r].order) && TaskSet(rows[r]) == Offered(available, Deficit(idle, available))
    {
      assert OffersTo(idle, available, benefit, r, rows[r]);
      PaddedRowIsOffered(available, OwnRow(available, benefit, r), Deficit(idle, available), rows[r]);
    }
  }

  // ------------------------------------------------------ the round runner

  type Runner = (nat, seq<AgentId>, map<AgentId, Row>) -> RoundResult

  /** Every robot gets an offered task of its own. */
  ghost predicate Settles(robots: set<AgentId>, offered: set<TaskId>, assignment: map<AgentId, Option<TaskId>>) {
    && assignment.Keys == robots
    && (forall a | a in assignment :: assignment[a].Some? && assignment[a].value in offered)
    && (forall a, b {:trigger Differ(assignment, a, b)} | a in assignment && b in assignment && a != b ::
         Differ(assignment, a, b))
  }

  ghost predicate Differ(assignment: map<AgentId, Option<TaskId>>, a: AgentId, b: AgentId)
    requires a in assignment && b in assignment
  {
    assignment[a] != assignment[b]
  }

  /** No assignment is better than the result's by more than n * epsilon. */
  ghost predicate NearBest(inst: Instance, result: RoundResult) {
    && Chosen(result).Keys == inst.rows.Keys
    && forall f {:trigger IsAssignment(inst, f)} | IsAssignment(inst, f) ::
         TotalBenefit(inst, Chosen(result)) >= TotalBenefit(inst, f) - Times(|inst.rows|, inst.config.epsilon)
  }

  /** Accepted input is settled, and near the optimum. */
  ghost predicate Honours(inst: Instance, result: RoundResult) {
    Settles(inst.rows.Keys, inst.tasks, result.assignment) && NearBest(inst, result)
  }

  /** The contract of a round runner. */
  ghost predicate Reliable(run: Runner, config: RoundConfig) {
    forall k: nat, order, rows, tasks {:trigger run(k, order, rows), Accepts(rows, tasks)} ::
      IsInput(order, rows) && Accepts(rows, tasks) ==> Honours(Instance(tasks, rows, config), run(k, order, rows))
  }

  /** The robots that got a real task. */
  function Winners(assignment: map<AgentId, Option<TaskId>>): set<AgentId> {
    set a | a in assignment && assignment[a].Some? && assignment[a].value >= 0
  }

  /** The real tasks they got. */
  function Won(assignment: map<AgentId, Option<TaskId>>): set<TaskId> {
    set a | a in assignment && assignment[a].Some? && assignment[a].value >= 0 :: assignment[a].value
  }

  function Choices(assignment: map<AgentId, Option<TaskId>>, agents: set<AgentId>): map<AgentId, TaskId>
    requires forall a | a in agents :: a in assignment && assignment[a].Some?
  {
    map a | a in agents :: assignment[a].value
  }

  lemma ChoicesAreInjective(robots: set<AgentId>, offered: set<TaskId>, assignment: map<AgentId, Option<TaskId>>,
                            agents: set<AgentId>)
    requires Settles(robots, offered, assignment) && agents <= robots
    ensures Injective(Choices(assignment, agents)) && |Choices(assignment, agents).Values| == |agents|
    ensures Choices(assignment, agents).Values <= offered
  {
    var f := Choices(assignment, agents);
    forall a, b | a in f && b in f && a != b ensures f[a] != f[b] {
      assert Differ(assignment, a, b);
    }
    InjectiveCardinality(f);
    assert f.Keys == agents;
  }

  lemma WinnersAndWon(robots: set<AgentId>, offered: set<TaskId>, assignment: map<AgentId, Option<TaskId>>)
    requires Settles(robots, offered, assignment)
    ensures |Winners(assignment)| == |Won(assignment)|
  {
    var f := Choices(assignment, Winners(assignment));
    ChoicesAreInjective(robots, offered, assignment, Winners(assignment));
    forall t | t in Won(assignment) ensures t in f.Values {
      var a :| a in assignment && assignment[a].Some? && assignment[a].value >= 0 && assignment[a].value == t;
      assert f[a] == t;
    }
    assert f.Values == Won(assignment);
  }

  /** With as many offers as robots, every offer is taken. */
  lemma AllOffersTaken(robots: set<AgentId>, offered: set<TaskId>, assignment: map<AgentId, Option<TaskId>>, t: TaskId)
    requires Settles(robots, offered, assignment) && |robots| == |offered| && t in offered
    ensures exists a :: a in assignment && assignment[a] == Some(t)
  {
    var f := Choices(assignment, robots);
    ChoicesAreInjective(robots, offered, assignment, robots);
    SubsetCardinality(f.Values, offered);
    var a :| a in f && f[a] == t;
    assert assignment[a] == Some(t);
  }

  /**
   A settled round dispatches as many tasks as it can: every robot works if
   there are tasks enough, and every task is taken if there are robots enough.
   */
  lemma RoundDispatchesAll(idle: seq<AgentId>, available: seq<TaskId>, assignment: map<AgentId, Option<TaskId>>)
    requires NoDuplicates(idle) && NoDuplicates(available) && forall t | t in available :: t >= 0
    requires Settles(Elements(idle), Offered(available, Deficit(idle, available)), assignment)
    ensures Won(assignment) <= Elements(available)
    ensures |available| <= |idle| ==> Won(assignment) == Elements(available)
    ensures |idle| <= |available| ==> Winners(assignment) == Elements(idle)
    ensures |Winners(assignment)| == if |idle| <= |available| then |idle| else |available|
  {
    var robots, offered := Elements(idle), Offered(available, Deficit(idle, available));
    ElementsCardinality(idle);
    ElementsCardinality(available);
    OfferedCardinality(available, Deficit(idle, available));
    WinnersAndWon(robots, offered, assignment);
    if |available| <= |idle| {
      forall t | t in available ensures t in Won(assignment) {
        AllOffersTaken(robots, offered, assignment, t);
      }
    }
  }

  // ------------------------------------------------------ auction rounds as the runner

  /** A round over this network, which starts empty, may return this result. */
  ghost predicate Returns(trial: Trial, sent: nat, maxTicks: int, result: RoundResult) {
    trial.backlog == [] && PlaysOut(trial, sent, maxTicks, EventLoopSuccess(result))
  }

  /** A successful auction round on this input, over some network, returns this result. */
  ghost predicate Auctioned(order: seq<AgentId>, rows: map<AgentId, Row>, tasks: set<TaskId>, config: RoundConfig,
                            result: RoundResult)
  {
    exists network: Network, sent: nat, maxTicks: int ::
      Returns(TrialOf(tasks, rows, config, order, network, []), sent, maxTicks, result)
  }

  function EventLoopSuccess(result: RoundResult): Harness.Result<RoundResult> {
    Harness.Success(result)
  }

  /** A successful auction round settles its input, whatever the network did. */
  lemma AuctionsSettle(h: History, maxTicks: int, result: RoundResult)
    requires h.trial.backlog == [] && Explains(h, maxTicks, EventLoopSuccess(result))
    ensures Settles(h.trial.inst.rows.Keys, h.trial.inst.tasks, result.assignment)
  {
    var s := FinalState(h, maxTicks, result);
    ClaimsAreAssignment(h.trial.inst, s, result.prices);
    var chosen := Chosen(result);
    assert result.assignment.Keys == chosen.Keys;
    forall a, b | a in result.assignment && b in result.assignment && a != b
      ensures Differ(result.assignment, a, b)
    {
      assert chosen[a] != chosen[b];
    }
  }

  /** Nor does it stay more than n * epsilon below any assignment. */
  lemma AuctionsAreNearBest(h: History, maxTicks: int, result: RoundResult)
    requires h.trial.backlog == [] && Explains(h, maxTicks, EventLoopSuccess(result))
    ensures NearBest(h.trial.inst, result)
  {
    var s := FinalState(h, maxTicks, result);
    ClaimsAreAssignment(h.trial.inst, s, result.prices);
    forall f | IsAssignment(h.trial.inst, f)
      ensures TotalBenefit(h.trial.inst, Chosen(result))
              >= TotalBenefit(h.trial.inst, f) - Times(|h.trial.inst.rows|, h.trial.inst.config.epsilon)
    {
      SuccessIsNearOptimal(h, maxTicks, result, f);
    }
  }

  lemma ReturnedHonours(trial: Trial, sent: nat, maxTicks: int, result: RoundResult)
    requires Returns(trial, sent, maxTicks, result)
    ensures Honours(trial.inst, result)
  {
    AuctionsSettle(HistoryOf(trial), maxTicks, result);
    AuctionsAreNearBest(HistoryOf(trial), maxTicks, result);
  }

  lemma AuctionedHonours(order: seq<AgentId>, rows: map<AgentId, Row>, tasks: set<TaskId>, config: RoundConfig,
                         result: RoundResult)
    requires Auctioned(order, rows, tasks, config, result)
    ensures Honours(Instance(tasks, rows, config), result)
  {
    var network: Network, sent: nat, maxTicks: int :|
      Returns(TrialOf(tasks, rows, config, order, network, []), sent, maxTicks, result);
    ReturnedHonours(TrialOf(tasks, rows, config, order, network, []), sent, maxTicks, result);
  }

  /** So a runner that plays auction rounds with these parameters honours its contract. */
  lemma AuctionRunnerIsReliable(run: Runner, config: RoundConfig)
    requires forall k: nat, order, rows, tasks {:trigger run(k, order, rows), Accepts(rows, tasks)} ::
               IsInput(order, rows) && Accepts(rows, tasks) ==>
                 Auctioned(order, rows, tasks, config, run(k, order, rows))
    ensures Reliable(run, config)
  {
    forall k: nat, order, rows, tasks | IsInput(order, rows) && Accepts(rows, tasks)
      ensures Honours(Instance(tasks, rows, config), run(k, order, rows))
    {
      AuctionedHonours(order, rows, tasks, config, run(k, order, rows));
    }
  }

  // ------------------------------------------------------ such a runner exists

  /** The complete network over these agents, without loss or delay. */
  function Faultless(order: seq<AgentId>): Network {
    Network(now => Complete(order), (now, a, b) => Delayed(0))
  }

  lemma FaultlessFits(trial: Trial)
    requires trial.Valid() && trial.network == Faultless(trial.order)
    ensures LosslessStatic(trial.network, Complete(trial.order)) && Within(trial.inst, Complete(trial.order))
    ensures Connected(trial.inst, Complete(trial.order)) && LinksWithin(trial.inst, trial.network)
  {
    CompleteDiameter(trial.order);
    assert Elements(trial.order) == trial.inst.rows.Keys;
    RoundTopology(trial.inst, Complete(trial.order));
    StaticLinksWithin(trial.inst, trial.network, Complete(trial.order));
  }

  /** The result of a round that ends consistently in iteration `end`. */
  ghost function ResultAt(h: History, end: nat, prices: Table): RoundResult {
    RoundResult(Harness.Assignments(h.states(end + 1).agents), end, CopiesUntil(h, end + 1), prices)
  }

  lemma ConsistentEndReturns(h: History, end: nat, prices: Table)
    requires ConsistentEnd(h, end, prices)
    ensures EventLoopSuccess(ResultAt(h, end, prices)) in Outcomes(h, end + 1)
  {
    SuccessIsExplained(h, end + 1, end, ResultAt(h, end, prices));
  }

  /** A faultless round ends consistently. */
  lemma FaultlessRoundEnds(h: History) returns (end: nat, prices: Table)
    requires h.trial.backlog == [] && h.trial.network == Faultless(h.trial.order)
    requires 0 < |h.trial.inst.rows| <= |h.trial.inst.tasks|
    ensures EventLoopSuccess(ResultAt(h, end, prices)) in Outcomes(h, end + 1)
  {
    FaultlessFits(h.trial);
    var k := EveryRoundComesToRest(h);
    end := FirstEnd(h, k - 1);
    prices := LosslessEndAgrees(h, Complete(h.trial.order), end);
    ConsistentEndReturns(h, end, prices);
  }

  lemma OutcomeReturns(trial: Trial, end: nat, prices: Table)
    requires trial.Valid() && trial.backlog == []
    requires EventLoopSuccess(ResultAt(HistoryOf(trial), end, prices)) in Outcomes(HistoryOf(trial), end + 1)
    ensures Returns(trial, 0, end + 1, ResultAt(HistoryOf(trial), end, prices))
  {
  }

  lemma ReturnedIsAuctioned(trial: Trial, sent: nat, maxTicks: int, result: RoundResult)
    requires Returns(trial, sent, maxTicks, result)
    ensures Auctioned(trial.order, trial.inst.rows, trial.inst.tasks, trial.inst.config, result)
  {
    assert trial == TrialOf(trial.inst.tasks, trial.inst.rows, trial.inst.config, trial.order, trial.network, []);
  }

  lemma FaultlessRoundSucceeds(trial: Trial)
    requires trial.Valid() && trial.backlog == [] && trial.network == Faultless(trial.order)
    requires 0 < |trial.inst.rows| <= |trial.inst.tasks|
    ensures exists result :: Auctioned(trial.order, trial.inst.rows, trial.inst.tasks, trial.inst.config, result)
  {
    var end, prices := FaultlessRoundEnds(HistoryOf(trial));
    OutcomeReturns(trial, end, prices);
    ReturnedIsAuctioned(trial, 0, end + 1, ResultAt(HistoryOf(trial), end, prices));
  }

  /** On accepted input some auction round succeeds. */
  lemma AuctionExists(order: seq<AgentId>, rows: map<AgentId, Row>, tasks: set<TaskId>, config: RoundConfig)
    requires IsInput(order, rows) && Accepts(rows, tasks)
    ensures exists result :: Auctioned(order, rows, tasks, config, result)
  {
    var trial := TrialOf(tasks, rows, config, order, Faultless(order), []);
    AcceptedTrialIsValid(trial);
    FaultlessRoundSucceeds(trial);
  }

  /** The tasks that some agent is offered. */
  ghost function AllTasks(rows: map<AgentId, Row>): set<TaskId> {
    set a, t | a in rows && t in rows[a].order :: t
  }

  lemma AcceptedTasks(rows: map<AgentId, Row>, tasks: set<TaskId>)
    requires Accepts(rows, tasks)
    ensures AllTasks(rows) == tasks
  {
    var first := Pick(rows.Keys);
    assert TaskSet(rows[first]) == tasks;
    forall a, t | a in rows && t in rows[a].order ensures t in tasks {
      assert t in TaskSet(rows[a]);
    }
  }

  /** The result of some auction round on this input; anything if there is none. */
  ghost function AuctionOf(order: seq<AgentId>, rows: map<AgentId, Row>, tasks: set<TaskId>,
                           config: RoundConfig): RoundResult
  {
    if exists result :: Auctioned(order, rows, tasks, config, result) then
      var result :| Auctioned(order, rows, tasks, config, result);
      result
    else RoundResult(map[], 0, 0, map[])
  }

  lemma AuctionOfIsAuctioned(order: seq<AgentId>, rows: map<AgentId, Row>, tasks: set<TaskId>, config: RoundConfig)
    requires exists result :: Auctioned(order, rows, tasks, config, result)
    ensures Auctioned(order, rows, tasks, config, AuctionOf(order, rows, tasks, config))
  {
  }

  ghost function AuctionRunner(config: RoundConfig): Runner {
    (k: nat, order, rows) => AuctionOf(order, rows, AllTasks(rows), config)
  }

  /** The contract of a round runner can be met: by a runner that plays an auction round each time. */
  lemma ReliableRunnerExists(config: RoundConfig) returns (run: Runner)
    ensures forall k: nat, order, rows, tasks {:trigger run(k, order, rows), Accepts(rows, tasks)} ::
              IsInput(order, rows) && Accepts(rows, tasks) ==>
                Auctioned(order, rows, tasks, config, run(k, order, rows))
    ensures Reliable(run, config)
  {
    run := AuctionRunner(config);
    forall k: nat, order, rows, tasks | IsInput(order, rows) && Accepts(rows, tasks)
      ensures Auctioned(order, rows, tasks, config, run(k, order, rows))
    {
      AcceptedTasks(rows, tasks);
      AuctionExists(order, rows, tasks, config);
      AuctionOfIsAuctioned(order, rows, tasks, config);
    }
    AuctionRunnerIsReliable(run, config);
  }
}
