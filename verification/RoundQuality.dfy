/**
 How good the dispatches of one allocator round are. A round is near optimal for
 the padded offer; for the real benefits that is a guarantee exactly when there
 are tasks enough for all idle robots.
 */
module RoundQuality {
  import opened Types
  import opened Sets
  import opened Sums
  import opened Auction
  import opened EventLoop
  import opened Optimality
  import opened Guarantees
  import opened RoundOffers
  import opened RowShifts

  /** Idle robots and available tasks as a round offers them. */
  ghost predicate IsSupply(idle: seq<AgentId>, available: seq<TaskId>) {
    && idle != [] && available != [] && NoDuplicates(idle) && NoDuplicates(available)
    && (forall t | t in available :: t >= 0) && (forall r | r in idle :: r >= 0)
  }

  /** The real tasks of an assignment: the dispatches. */
  function RealPart(f: map<AgentId, TaskId>): map<AgentId, TaskId> {
    map a | a in f && f[a] >= 0 :: f[a]
  }

  /** As many dispatches as possible, each robot at most one task and each task at most one robot. */
  ghost predicate IsDispatch(idle: seq<AgentId>, available: seq<TaskId>, g: map<AgentId, TaskId>) {
    && g.Keys <= Elements(idle) && g.Values <= Elements(available) && Injective(g)
    && |g| == if |idle| <= |available| then |idle| else |available|
  }

  ghost function RealTotal(benefit: (AgentId, TaskId) -> real, g: map<AgentId, TaskId>): real {
    Sum(map a | a in g :: benefit(a, g[a]))
  }

  /** What a task is worth to a robot beyond an idle slot. */
  function Gain(benefit: (AgentId, TaskId) -> real, available: seq<TaskId>, a: AgentId, t: TaskId): real
    requires available != []
  {
    benefit(a, t) - Floor(OwnRow(available, benefit, a))
  }

  function Gains(benefit: (AgentId, TaskId) -> real, available: seq<TaskId>,
                 g: map<AgentId, TaskId>): map<AgentId, real>
    requires available != []
  {
    map a | a in g :: Gain(benefit, available, a, g[a])
  }

  ghost function GainTotal(benefit: (AgentId, TaskId) -> real, available: seq<TaskId>, g: map<AgentId, TaskId>): real
    requires available != []
  {
    Sum(Gains(benefit, available, g))
  }

  // ------------------------------------------------------ totals of the padded offer

  /** What is offered to `a`: a task at its benefit, or an idle slot at the floor. */
  lemma OfferedBenefit(idle: seq<AgentId>, available: seq<TaskId>, benefit: (AgentId, TaskId) -> real,
                       rows: map<AgentId, Row>, a: AgentId, t: TaskId)
    requires IsSupply(idle, available) && IsOffer(idle, available, benefit, rows)
    requires a in idle && t in Offered(available, Deficit(idle, available))
    ensures t >= 0 <==> t in available
    ensures |idle| <= |available| ==> t >= 0
    ensures rows[a].benefit(t) == if t >= 0 then benefit(a, t) else Floor(OwnRow(available, benefit, a))
  {
    assert OffersTo(idle, available, benefit, a, rows[a]);
    assert t in available || t in Sentinels(Deficit(idle, available));
  }

  /** Without idle slots the padded total is the real one. */
  lemma EnoughTasksTotal(idle: seq<AgentId>, available: seq<TaskId>, benefit: (AgentId, TaskId) -> real,
                         rows: map<AgentId, Row>, config: RoundConfig, f: map<AgentId, TaskId>)
    requires IsSupply(idle, available) && IsOffer(idle, available, benefit, rows) && |idle| <= |available|
    requires IsAssignment(OfferedInstance(idle, available, rows, config), f)
    ensures RealPart(f) == f
    ensures TotalBenefit(OfferedInstance(idle, available, rows, config), f) == RealTotal(benefit, f)
  {
    forall a | a in f ensures f[a] >= 0 && rows[a].benefit(f[a]) == benefit(a, f[a]) {
      OfferedBenefit(idle, available, benefit, rows, a, f[a]);
    }
    assert Benefits(OfferedInstance(idle, available, rows, config), f) == map a | a in f :: benefit(a, f[a]);
  }

  function Floors(available: seq<TaskId>, benefit: (AgentId, TaskId) -> real, agents: set<AgentId>): map<AgentId, real>
    requires available != []
  {
    map a | a in agents :: Floor(OwnRow(available, benefit, a))
  }

  /** What each robot gets beyond its floor. */
  function Extras(benefit: (AgentId, TaskId) -> real, available: seq<TaskId>,
                  f: map<AgentId, TaskId>): map<AgentId, real>
    requires available != []
  {
    map a | a in f :: if f[a] >= 0 then Gain(benefit, available, a, f[a]) else 0.0
  }

  lemma ExtrasTotal(benefit: (AgentId, TaskId) -> real, available: seq<TaskId>, f: map<AgentId, TaskId>)
    requires available != []
    ensures Sum(Extras(benefit, available, f)) == GainTotal(benefit, available, RealPart(f))
  {
    var extras, winners := Extras(benefit, available, f), RealPart(f).Keys;
    SumSplit(extras, winners);
    assert Restrict(extras, winners) == Gains(benefit, available, RealPart(f));
    SumOfZeros(extras - winners);
  }

  /** The padded total: every robot's floor, and what the dispatches gain beyond it. */
  lemma PaddedTotal(idle: seq<AgentId>, available: seq<TaskId>, benefit: (AgentId, TaskId) -> real,
                    rows: map<AgentId, Row>, config: RoundConfig, f: map<AgentId, TaskId>)
    requires IsSupply(idle, available) && IsOffer(idle, available, benefit, rows)
    requires IsAssignment(OfferedInstance(idle, available, rows, config), f)
    ensures TotalBenefit(OfferedInstance(idle, available, rows, config), f)
            == Sum(Floors(available, benefit, rows.Keys)) + GainTotal(benefit, available, RealPart(f))
  {
    var floors, extras := Floors(available, benefit, rows.Keys), Extras(benefit, available, f);
    var benefits := Benefits(OfferedInstance(idle, available, rows, config), f);
    forall a | a in benefits ensures benefits[a] == floors[a] + extras[a] {
      OfferedBenefit(idle, available, benefit, rows, a, f[a]);
    }
    SumAdd(floors, extras, benefits);
    ExtrasTotal(benefit, available, f);
  }

  // ------------------------------------------------------ enough tasks

  /** With a task for every idle robot the dispatches are within n * epsilon of the best ones. */
  lemma DispatchIsNearBest(idle: seq<AgentId>, available: seq<TaskId>, benefit: (AgentId, TaskId) -> real,
                           rows: map<AgentId, Row>, config: RoundConfig, result: RoundResult, g: map<AgentId, TaskId>)
    requires IsSupply(idle, available) && IsOffer(idle, available, benefit, rows) && |idle| <= |available|
    requires Honours(OfferedInstance(idle, available, rows, config), result) && IsDispatch(idle, available, g)
    ensures RealTotal(benefit, RealPart(Chosen(result))) >= RealTotal(benefit, g) - Times(|idle|, config.epsilon)
  {
    var inst := OfferedInstance(idle, available, rows, config);
    RowsAreIdle(idle, available, benefit, rows);
    ElementsCardinality(idle);
    SubsetCardinality(g.Keys, Elements(idle));
    assert |g| == |g.Keys|;
    assert IsAssignment(inst, g);
    ChosenIsAssignment(inst, result);
    EnoughTasksTotal(idle, available, benefit, rows, config, g);
    EnoughTasksTotal(idle, available, benefit, rows, config, Chosen(result));
  }

  lemma RowsAreIdle(idle: seq<AgentId>, available: seq<TaskId>, benefit: (AgentId, TaskId) -> real,
                    rows: map<AgentId, Row>)
    requires IsSupply(idle, available) && IsOffer(idle, available, benefit, rows)
    ensures rows.Keys == Elements(idle) && |rows| == |idle|
  {
    ElementsCardinality(idle);
    assert rows.Keys == Elements(idle);
    assert |rows| == |rows.Keys|;
  }

  lemma ChosenIsAssignment(inst: Instance, result: RoundResult)
    requires Honours(inst, result)
    ensures IsAssignment(inst, Chosen(result))
  {
    var f := Chosen(result);
    forall a, b | a in f && b in f && a != b ensures f[a] != f[b] {
      assert Differ(result.assignment, a, b);
    }
  }

  // ------------------------------------------------------ surplus robots

  /** How many of these robots have no task in `g`. */
  ghost function Idlers(idle: seq<AgentId>, g: map<AgentId, TaskId>): nat {
    |Elements(idle) - g.Keys|
  }

  lemma IdlersNext(rest: seq<AgentId>, last: AgentId, g: map<AgentId, TaskId>)
    requires last !in rest
    ensures Idlers(rest + [last], g) == Idlers(rest, g) + if last in g then 0 else 1
  {
    ElementsMore(rest, last);
    OneMoreLeft(Elements(rest), g.Keys, last);
  }

  /** What `g` dispatches stays; everyone else has one of the first `n` idle slots. */
  ghost predicate SlotsBelow(g: map<AgentId, TaskId>, f: map<AgentId, TaskId>, n: nat) {
    forall a | a in f :: if a in g then f[a] == g[a] else f[a] < 0 <= f[a] + n
  }

  lemma GiveTask(g: map<AgentId, TaskId>, f: map<AgentId, TaskId>, n: nat, a: AgentId)
    requires Injective(g) && Injective(f) && SlotsBelow(g, f, n) && a in g && a !in f && forall b | b in g :: g[b] >= 0
    ensures f[a := g[a]].Keys == f.Keys + {a} && Injective(f[a := g[a]]) && SlotsBelow(g, f[a := g[a]], n)
  {
    forall b | b in f ensures f[b] != g[a] {
      assert b in g ==> f[b] == g[b];
    }
  }

  lemma GiveSlot(g: map<AgentId, TaskId>, f: map<AgentId, TaskId>, n: nat, a: AgentId)
    requires Injective(f) && SlotsBelow(g, f, n) && a !in g && a !in f && forall b | b in g :: g[b] >= 0
    ensures f[a := -1 - n].Keys == f.Keys + {a} && Injective(f[a := -1 - n]) && SlotsBelow(g, f[a := -1 - n], n + 1)
  {
    forall b | b in f ensures f[b] != -1 - n {
      assert b in g ==> f[b] == g[b];
    }
  }

  /** The dispatches `g`, and one of `n` idle slots for every other robot. */
  ghost predicate IsFilledIn(idle: seq<AgentId>, g: map<AgentId, TaskId>, f: map<AgentId, TaskId>, n: nat) {
    f.Keys == Elements(idle) && Injective(f) && SlotsBelow(g, f, n)
  }

  lemma {:induction false} FillIn(idle: seq<AgentId>, g: map<AgentId, TaskId>) returns (f: map<AgentId, TaskId>, n: nat)
    requires NoDuplicates(idle) && (forall a | a in g :: g[a] >= 0) && Injective(g)
    ensures IsFilledIn(idle, g, f, n) && n == Idlers(idle, g)
    decreases |idle|
  {
    if idle == [] {
      f, n := map[], 0;
      assert Elements(idle) == {} && Elements(idle) - g.Keys == {};
    } else {
      var rest, last := idle[..|idle| - 1], idle[|idle| - 1];
      assert idle == rest + [last];
      f, n := FillIn(rest, g);
      IdlersNext(rest, last, g);
      ElementsMore(rest, last);
      if last in g {
        GiveTask(g, f, n, last);
        f := f[last := g[last]];
      } else {
        GiveSlot(g, f, n, last);
        f, n := f[last := -1 - n], n + 1;
      }
    }
  }

  lemma FilledInRealPart(g: map<AgentId, TaskId>, f: map<AgentId, TaskId>, n: nat)
    requires SlotsBelow(g, f, n) && forall a | a in g :: a in f && g[a] >= 0
    ensures RealPart(f) == g
  {
    forall a | a in f ensures f[a] >= 0 <==> a in g {
    }
  }

  lemma FilledInIsOffered(available: seq<TaskId>, g: map<AgentId, TaskId>, f: map<AgentId, TaskId>, n: nat, a: AgentId)
    requires SlotsBelow(g, f, n) && a in f && forall b | b in g :: g[b] in available
    ensures f[a] in Offered(available, n)
  {
    if a !in g {
      SlotIsOffered(n, f[a]);
    }
  }

  /** Any dispatches of a round with surplus robots are part of an assignment of the padded offer. */
  lemma FillInAssignment(idle: seq<AgentId>, available: seq<TaskId>, benefit: (AgentId, TaskId) -> real,
                         rows: map<AgentId, Row>, config: RoundConfig, g: map<AgentId, TaskId>)
    returns (f: map<AgentId, TaskId>)
    requires IsSupply(idle, available) && IsOffer(idle, available, benefit, rows) && |idle| > |available|
    requires IsDispatch(idle, available, g)
    ensures IsAssignment(OfferedInstance(idle, available, rows, config), f) && RealPart(f) == g
  {
    DispatchedTasks(idle, available, g);
    var n;
    f, n := FillIn(idle, g);
    FilledInRealPart(g, f, n);
    SlotsSuffice(idle, available, g);
    RowsAreIdle(idle, available, benefit, rows);
    forall a | a in f ensures f[a] in Offered(available, Deficit(idle, available)) {
      FilledInIsOffered(available, g, f, n, a);
    }
  }

  lemma DispatchedTasks(idle: seq<AgentId>, available: seq<TaskId>, g: map<AgentId, TaskId>)
    requires IsDispatch(idle, available, g)
    ensures forall a | a in g :: g[a] in available && a in idle
  {
    forall a | a in g ensures g[a] in available && a in idle {
      assert g[a] in g.Values;
    }
  }

  lemma SlotsSuffice(idle: seq<AgentId>, available: seq<TaskId>, g: map<AgentId, TaskId>)
    requires NoDuplicates(idle) && |idle| > |available| && IsDispatch(idle, available, g)
    ensures Idlers(idle, g) == Deficit(idle, available)
  {
    ElementsCardinality(idle);
    assert |g| == |g.Keys|;
    Partition(Elements(idle), g.Keys, Elements(idle) - g.Keys);
  }

  lemma SlotIsOffered(n: nat, slot: TaskId)
    requires slot < 0 <= slot + n
    ensures slot in Sentinels(n)
  {
    assert Sentinels(n)[-1 - slot] == slot;
  }

  /** With surplus robots, what is within n * epsilon of the best is the gain over an idle slot. */
  lemma SurplusGainIsNearBest(idle: seq<AgentId>, available: seq<TaskId>, benefit: (AgentId, TaskId) -> real,
                              rows: map<AgentId, Row>, config: RoundConfig, result: RoundResult,
                              g: map<AgentId, TaskId>)
    requires IsSupply(idle, available) && IsOffer(idle, available, benefit, rows) && |idle| > |available|
    requires Honours(OfferedInstance(idle, available, rows, config), result) && IsDispatch(idle, available, g)
    ensures GainTotal(benefit, available, RealPart(Chosen(result)))
            >= GainTotal(benefit, available, g) - Times(|idle|, config.epsilon)
  {
    var inst := OfferedInstance(idle, available, rows, config);
    RowsAreIdle(idle, available, benefit, rows);
    var f := FillInAssignment(idle, available, benefit, rows, config, g);
    ChosenIsAssignment(inst, result);
    PaddedTotal(idle, available, benefit, rows, config, f);
    PaddedTotal(idle, available, benefit, rows, config, Chosen(result));
  }

  // ------------------------------------------------------ when the real benefit is guaranteed

  /** Every robot values the available tasks alike. */
  ghost predicate IsLevel(idle: seq<AgentId>, available: seq<TaskId>, benefit: (AgentId, TaskId) -> real) {
    forall a, t, u | a in idle && t in available && u in available :: benefit(a, t) == benefit(a, u)
  }

  lemma {:induction false} LevelSmallest(row: Row, k: nat, x: real)
    requires 0 < k <= |row.order| && forall t | t in row.order :: row.benefit(t) == x
    ensures Smallest(row, k) == x
  {
    if k > 1 {
      LevelSmallest(row, k - 1, x);
    }
  }

  lemma LevelGain(idle: seq<AgentId>, available: seq<TaskId>, benefit: (AgentId, TaskId) -> real, a: AgentId, t: TaskId)
    requires IsLevel(idle, available, benefit) && a in idle && t in available
    ensures Gain(benefit, available, a, t) == 1.0
  {
    LevelSmallest(OwnRow(available, benefit, a), |available|, benefit(a, t));
  }

  lemma RealOffer(idle: seq<AgentId>, available: seq<TaskId>, t: TaskId)
    requires t in Offered(available, Deficit(idle, available)) && t >= 0
    ensures t in available
  {
    assert t !in Sentinels(Deficit(idle, available));
  }

  /** An assignment of the padded offer takes every offer. */
  lemma AllOffersAssigned(idle: seq<AgentId>, available: seq<TaskId>, benefit: (AgentId, TaskId) -> real,
                          rows: map<AgentId, Row>, config: RoundConfig, f: map<AgentId, TaskId>)
    requires IsSupply(idle, available) && IsOffer(idle, available, benefit, rows) && |idle| > |available|
    requires IsAssignment(OfferedInstance(idle, available, rows, config), f)
    ensures f.Values == Offered(available, Deficit(idle, available))
  {
    var offered := Offered(available, Deficit(idle, available));
    OfferedCardinality(available, Deficit(idle, available));
    RowsAreIdle(idle, available, benefit, rows);
    ElementsCardinality(idle);
    InjectiveIsOnto(f, offered);
  }

  lemma RealPartIsInjective(f: map<AgentId, TaskId>)
    requires Injective(f)
    ensures Injective(RealPart(f)) && |RealPart(f)| == |RealPart(f).Values|
  {
    var g := RealPart(f);
    forall a, b | a in g && b in g && a != b ensures g[a] != g[b] {
      assert f[a] != f[b];
    }
    InjectiveCardinality(g);
    assert |g| == |g.Keys|;
  }

  lemma RealPartTakesAll(idle: seq<AgentId>, available: seq<TaskId>, f: map<AgentId, TaskId>)
    requires IsSupply(idle, available) && f.Values == Offered(available, Deficit(idle, available)) && Injective(f)
    ensures RealPart(f).Values == Elements(available) && |RealPart(f)| == |available|
  {
    var g := RealPart(f);
    forall t | t in available ensures t in g.Values {
      assert t in f.Values;
      var a :| a in f && f[a] == t;
      assert g[a] == t;
    }
    forall t | t in g.Values ensures t in available {
      var a :| a in g && g[a] == t;
      assert f[a] in f.Values;
      RealOffer(idle, available, f[a]);
    }
    assert g.Values == Elements(available);
    RealPartIsInjective(f);
    ElementsCardinality(available);
  }

  lemma LevelGains(idle: seq<AgentId>, available: seq<TaskId>, benefit: (AgentId, TaskId) -> real,
                   g: map<AgentId, TaskId>)
    requires IsLevel(idle, available, benefit) && available != []
    requires g.Keys <= Elements(idle) && g.Values <= Elements(available)
    ensures GainTotal(benefit, available, g) == Times(|g|, 1.0)
  {
    var gains := Gains(benefit, available, g);
    forall a | a in g ensures gains[a] == 1.0 {
      assert g[a] in g.Values && a in Elements(idle);
      LevelGain(idle, available, benefit, a, g[a]);
    }
    assert gains.Keys == g.Keys;
    assert |gains| == |gains.Keys| && |g| == |g.Keys|;
    SumConstant(gains, 1.0);
  }

  /** Where every robot values all tasks alike, surplus robots make all assignments of the padded offer equally good. */
  lemma LevelOfferIsIndifferent(idle: seq<AgentId>, available: seq<TaskId>, benefit: (AgentId, TaskId) -> real,
                                rows: map<AgentId, Row>, config: RoundConfig, f: map<AgentId, TaskId>)
    requires IsSupply(idle, available) && IsOffer(idle, available, benefit, rows) && |idle| > |available|
    requires IsLevel(idle, available, benefit) && IsAssignment(OfferedInstance(idle, available, rows, config), f)
    ensures TotalBenefit(OfferedInstance(idle, available, rows, config), f)
            == Sum(Floors(available, benefit, rows.Keys)) + Times(|available|, 1.0)
  {
    PaddedTotal(idle, available, benefit, rows, config, f);
    AllOffersAssigned(idle, available, benefit, rows, config, f);
    RealPartTakesAll(idle, available, f);
    RowsAreIdle(idle, available, benefit, rows);
    assert RealPart(f).Keys <= f.Keys;
    LevelGains(idle, available, benefit, RealPart(f));
  }

  ghost function LevelTotal(available: seq<TaskId>, benefit: (AgentId, TaskId) -> real, rows: map<AgentId, Row>): real
    requires available != []
  {
    Sum(Floors(available, benefit, rows.Keys)) + Times(|available|, 1.0)
  }

  lemma LevelOfferIsAllEqual(idle: seq<AgentId>, available: seq<TaskId>, benefit: (AgentId, TaskId) -> real,
                             rows: map<AgentId, Row>, config: RoundConfig)
    requires IsSupply(idle, available) && IsOffer(idle, available, benefit, rows) && |idle| > |available|
    requires IsLevel(idle, available, benefit)
    ensures AllEqual(OfferedInstance(idle, available, rows, config), LevelTotal(available, benefit, rows))
  {
    forall f | IsAssignment(OfferedInstance(idle, available, rows, config), f)
      ensures TotalBenefit(OfferedInstance(idle, available, rows, config), f) == LevelTotal(available, benefit, rows)
    {
      LevelOfferIsIndifferent(idle, available, benefit, rows, config, f);
    }
  }

  /** All assignments come to this total. */
  ghost predicate AllEqual(inst: Instance, total: real) {
    forall f | IsAssignment(inst, f) :: TotalBenefit(inst, f) == total
  }

  /**
   So any dispatches whatever are a result that honours the contract: with one task left,
   for instance, any robot may get it.
   */
  lemma LevelOfferAllowsAny(idle: seq<AgentId>, available: seq<TaskId>, benefit: (AgentId, TaskId) -> real,
                            rows: map<AgentId, Row>, config: RoundConfig, g: map<AgentId, TaskId>)
    returns (result: RoundResult)
    requires IsSupply(idle, available) && IsOffer(idle, available, benefit, rows) && |idle| > |available|
    requires IsLevel(idle, available, benefit) && IsDispatch(idle, available, g)
    ensures Honours(OfferedInstance(idle, available, rows, config), result) && RealPart(Chosen(result)) == g
  {
    var f := FillInAssignment(idle, available, benefit, rows, config, g);
    result := ResultOf(f);
    LevelOfferIsAllEqual(idle, available, benefit, rows, config);
    AnyOfEquals(OfferedInstance(idle, available, rows, config), f, LevelTotal(available, benefit, rows));
  }

  /** Where all assignments are equally good, each of them honours the contract. */
  lemma AnyOfEquals(inst: Instance, f: map<AgentId, TaskId>, total: real)
    requires IsAssignment(inst, f) && AllEqual(inst, total)
    ensures Honours(inst, ResultOf(f)) && Chosen(ResultOf(f)) == f
  {
    AssignmentSettles(inst, f);
    TimesNonNegative(|inst.rows|, inst.config.epsilon);
  }

  /** A result with this assignment. */
  function ResultOf(f: map<AgentId, TaskId>): RoundResult {
    RoundResult(map a | a in f :: Some(f[a]), 0, 0, map[])
  }

  lemma AssignmentSettles(inst: Instance, f: map<AgentId, TaskId>)
    requires IsAssignment(inst, f)
    ensures Chosen(ResultOf(f)) == f && Settles(inst.rows.Keys, inst.tasks, ResultOf(f).assignment)
  {
  }

  lemma {:induction false} TimesNonNegative(n: nat, x: real)
    requires x >= 0.0
    ensures Times(n, x) >= 0.0
  {
    if n > 0 {
      TimesNonNegative(n - 1, x);
    }
  }

  /** The dispatches `g` are not better than the round's by more than n * epsilon. */
  ghost predicate Guaranteed(idle: seq<AgentId>, config: RoundConfig, benefit: (AgentId, TaskId) -> real,
                             result: RoundResult, g: map<AgentId, TaskId>)
  {
    RealTotal(benefit, RealPart(Chosen(result))) >= RealTotal(benefit, g) - Times(|idle|, config.epsilon)
  }

  /** An auction on the offer of these tasks to these robots, at these benefits, returns this result. */
  ghost predicate OfferAuctioned(idle: seq<AgentId>, available: seq<TaskId>, config: RoundConfig,
                                 benefit: (AgentId, TaskId) -> real, result: RoundResult)
  {
    exists rows :: IsOffer(idle, available, benefit, rows)
                   && Auctioned(idle, rows, Offered(available, Deficit(idle, available)), config, result)
  }

  /** Whatever the benefits and the network, no dispatches are better than an auction's by more than n * epsilon. */
  ghost predicate RealBenefitIsGuaranteed(idle: seq<AgentId>, available: seq<TaskId>, config: RoundConfig) {
    forall benefit, result, g {:trigger Guaranteed(idle, config, benefit, result, g)}
      | OfferAuctioned(idle, available, config, benefit, result) && IsDispatch(idle, available, g)
      :: Guaranteed(idle, config, benefit, result, g)
  }

  /** One task for each robot, in order. */
  function Paired(robots: seq<AgentId>, tasks: seq<TaskId>): map<AgentId, TaskId>
    requires |robots| == |tasks|
  {
    if robots == [] then map[]
    else
      var n := |robots| - 1;
      Paired(robots[..n], tasks[..n])[robots[n] := tasks[n]]
  }

  lemma {:induction false} PairedInOrder(robots: seq<AgentId>, tasks: seq<TaskId>)
    requires |robots| == |tasks| && NoDuplicates(robots) && NoDuplicates(tasks)
    ensures Paired(robots, tasks).Keys == Elements(robots) && Paired(robots, tasks).Values == Elements(tasks)
    ensures Injective(Paired(robots, tasks))
  {
    if robots != [] {
      var n := |robots| - 1;
      var rest := Paired(robots[..n], tasks[..n]);
      PairedInOrder(robots[..n], tasks[..n]);
      assert robots == robots[..n] + [robots[n]] && tasks == tasks[..n] + [tasks[n]];
      OneMorePair(rest, robots[n], tasks[n]);
    }
  }

  lemma OneMorePair(g: map<AgentId, TaskId>, a: AgentId, t: TaskId)
    requires Injective(g) && a !in g && t !in g.Values
    ensures g[a := t].Keys == g.Keys + {a} && g[a := t].Values == g.Values + {t} && Injective(g[a := t])
  {
    forall b | b in g ensures g[b] in g.Values && g[a := t][b] == g[b] {
    }
    assert g[a := t].Values == g.Values + {t} by {
      forall u | u in g.Values + {t} ensures u in g[a := t].Values {
        if u != t {
          var b :| b in g && g[b] == u;
          assert g[a := t][b] == u;
        } else {
          assert g[a := t][a] == u;
        }
      }
    }
  }

  /** The robots from `skip` on get the tasks. */
  function DispatchFrom(idle: seq<AgentId>, available: seq<TaskId>, skip: nat): map<AgentId, TaskId>
    requires skip + |available| <= |idle|
  {
    Paired(idle[skip..skip + |available|], available)
  }

  lemma DispatchFromIsDispatch(idle: seq<AgentId>, available: seq<TaskId>, skip: nat)
    requires IsSupply(idle, available) && skip + |available| <= |idle| && |available| < |idle|
    ensures IsDispatch(idle, available, DispatchFrom(idle, available, skip))
    ensures forall i | skip <= i < skip + |available| :: idle[i] in DispatchFrom(idle, available, skip)
  {
    var robots, g := idle[skip..skip + |available|], DispatchFrom(idle, available, skip);
    PairedInOrder(robots, available);
    ElementsCardinality(robots);
    assert |g| == |g.Keys|;
    forall i | skip <= i < skip + |available| ensures idle[i] in g {
      assert robots[i - skip] in robots;
    }
  }

  /** Dispatches that give this robot work. */
  lemma DispatchWith(idle: seq<AgentId>, available: seq<TaskId>, robot: AgentId) returns (g: map<AgentId, TaskId>)
    requires IsSupply(idle, available) && |available| < |idle| && robot in idle
    ensures IsDispatch(idle, available, g) && robot in g
  {
    var i :| 0 <= i < |idle| && idle[i] == robot;
    var skip := if i + |available| <= |idle| then i else |idle| - |available|;
    DispatchFromIsDispatch(idle, available, skip);
    g := DispatchFrom(idle, available, skip);
  }

  /** One robot values every task at `x`, the others value nothing. */
  function Favouring(robot: AgentId, x: real): (AgentId, TaskId) -> real {
    (a, t) => if a == robot then x else 0.0
  }

  lemma FavouredTotal(robot: AgentId, x: real, g: map<AgentId, TaskId>)
    ensures RealTotal(Favouring(robot, x), g) == if robot in g then x else 0.0
  {
    var benefits := map a | a in g :: Favouring(robot, x)(a, g[a]);
    if robot in g {
      SumRemove(benefits, robot);
      SumOfZeros(benefits - {robot});
    } else {
      SumOfZeros(benefits);
    }
  }

  lemma FavouringIsLevel(idle: seq<AgentId>, available: seq<TaskId>, robot: AgentId, x: real)
    ensures IsLevel(idle, available, Favouring(robot, x))
  {
  }

  /** Some offer of these tasks to these robots at these benefits. */
  lemma MakeOffer(idle: seq<AgentId>, available: seq<TaskId>, benefit: (AgentId, TaskId) -> real)
    returns (rows: map<AgentId, Row>)
    requires IsSupply(idle, available)
    ensures IsOffer(idle, available, benefit, rows)
  {
    rows := map r | r in Elements(idle) :: PaddedRow(OwnRow(available, benefit, r), Deficit(idle, available));
    forall r | r in rows ensures OffersTo(idle, available, benefit, r, rows[r]) {
      PaddedRowIsPadded(OwnRow(available, benefit, r), Deficit(idle, available));
    }
  }

  // ------------------------------------------------------ auctions on level offers

  /** To a robot that values all tasks alike, what it is offered looks the same at any level. */
  lemma LevelRowsShift(idle: seq<AgentId>, available: seq<TaskId>, benefit: (AgentId, TaskId) -> real,
                       benefit': (AgentId, TaskId) -> real, a: AgentId, row: Row, row': Row)
    requires IsLevel(idle, available, benefit) && IsLevel(idle, available, benefit') && a in idle && available != []
    requires OffersTo(idle, available, benefit, a, row) && OffersTo(idle, available, benefit', a, row')
    ensures SameTaste(row, row')
  {
    var t := available[0];
    var x := benefit'(a, t) - benefit(a, t);
    LevelSmallest(OwnRow(available, benefit, a), |available|, benefit(a, t));
    LevelSmallest(OwnRow(available, benefit', a), |available|, benefit'(a, t));
    forall u | u in row.order ensures row'.benefit(u) == row.benefit(u) + x {
      assert u in available || u in Sentinels(Deficit(idle, available));
    }
    assert Shifted(row, row', x);
  }

  lemma LevelOffersShift(idle: seq<AgentId>, available: seq<TaskId>, benefit: (AgentId, TaskId) -> real,
                         benefit': (AgentId, TaskId) -> real, rows: map<AgentId, Row>, rows': map<AgentId, Row>)
    requires available != [] && IsLevel(idle, available, benefit) && IsLevel(idle, available, benefit')
    requires IsOffer(idle, available, benefit, rows) && IsOffer(idle, available, benefit', rows')
    ensures SameTastes(rows, rows')
  {
    forall a | a in rows ensures SameTaste(rows[a], rows'[a]) {
      LevelRowsShift(idle, available, benefit, benefit', a, rows[a], rows'[a]);
    }
  }

  /** So on level offers the auctions do not see the benefits at all. */
  lemma LevelAuctionsIgnoreBenefits(idle: seq<AgentId>, available: seq<TaskId>, config: RoundConfig,
                                    benefit: (AgentId, TaskId) -> real, benefit': (AgentId, TaskId) -> real,
                                    result: RoundResult)
    requires IsSupply(idle, available) && IsLevel(idle, available, benefit) && IsLevel(idle, available, benefit')
    requires OfferAuctioned(idle, available, config, benefit, result)
    ensures OfferAuctioned(idle, available, config, benefit', result)
  {
    var rows :| IsOffer(idle, available, benefit, rows)
                && Auctioned(idle, rows, Offered(available, Deficit(idle, available)), config, result);
    var rows' := MakeOffer(idle, available, benefit');
    OfferIsAccepted(idle, available, benefit', rows');
    LevelOffersShift(idle, available, benefit, benefit', rows, rows');
    AuctionsShift(idle, rows, rows', Offered(available, Deficit(idle, available)), config, result);
  }

  lemma OffersAreAuctioned(idle: seq<AgentId>, available: seq<TaskId>, config: RoundConfig,
                           benefit: (AgentId, TaskId) -> real)
    requires IsSupply(idle, available)
    ensures exists result :: OfferAuctioned(idle, available, config, benefit, result)
  {
    var rows := MakeOffer(idle, available, benefit);
    OfferIsAccepted(idle, available, benefit, rows);
    AuctionExists(idle, rows, Offered(available, Deficit(idle, available)), config);
    var result :| Auctioned(idle, rows, Offered(available, Deficit(idle, available)), config, result);
    assert OfferAuctioned(idle, available, config, benefit, result);
  }

  /** With surplus robots an auction leaves some robot idle. */
  lemma SomeRobotStaysIdle(idle: seq<AgentId>, available: seq<TaskId>, config: RoundConfig,
                           benefit: (AgentId, TaskId) -> real, result: RoundResult) returns (robot: AgentId)
    requires IsSupply(idle, available) && |idle| > |available|
    requires OfferAuctioned(idle, available, config, benefit, result)
    ensures robot in idle && robot !in RealPart(Chosen(result))
  {
    var rows :| IsOffer(idle, available, benefit, rows)
                && Auctioned(idle, rows, Offered(available, Deficit(idle, available)), config, result);
    AuctionedHonours(idle, rows, Offered(available, Deficit(idle, available)), config, result);
    AllTasksDispatched(idle, available, config, benefit, rows, result);
    robot := NotEverybody(idle, RealPart(Chosen(result)));
  }

  lemma AllTasksDispatched(idle: seq<AgentId>, available: seq<TaskId>, config: RoundConfig,
                           benefit: (AgentId, TaskId) -> real, rows: map<AgentId, Row>, result: RoundResult)
    requires IsSupply(idle, available) && IsOffer(idle, available, benefit, rows) && |idle| > |available|
    requires Honours(OfferedInstance(idle, available, rows, config), result)
    ensures |RealPart(Chosen(result))| == |available|
  {
    ChosenIsAssignment(OfferedInstance(idle, available, rows, config), result);
    AllOffersAssigned(idle, available, benefit, rows, config, Chosen(result));
    RealPartTakesAll(idle, available, Chosen(result));
  }

  lemma NotEverybody(idle: seq<AgentId>, g: map<AgentId, TaskId>) returns (robot: AgentId)
    requires NoDuplicates(idle) && |g| < |idle|
    ensures robot in idle && robot !in g
  {
    ElementsCardinality(idle);
    assert |g| == |g.Keys|;
    if Elements(idle) <= g.Keys {
      SubsetCardinality(Elements(idle), g.Keys);
    }
    robot :| robot in Elements(idle) && robot !in g.Keys;
  }

  /**
   With surplus robots that value all tasks alike, as always with one task left,
   any result of an auction may miss the best: at other level benefits an auction
   returns the same, and leaves the one robot idle that values the work.
   */
  lemma SurplusMayMissTheBest(idle: seq<AgentId>, available: seq<TaskId>, config: RoundConfig,
                              benefit: (AgentId, TaskId) -> real, result: RoundResult)
    returns (benefit': (AgentId, TaskId) -> real, g: map<AgentId, TaskId>)
    requires IsSupply(idle, available) && |idle| > |available| && IsLevel(idle, available, benefit)
    requires OfferAuctioned(idle, available, config, benefit, result)
    ensures OfferAuctioned(idle, available, config, benefit', result)
    ensures IsDispatch(idle, available, g) && !Guaranteed(idle, config, benefit', result, g)
  {
    var worth := Times(|idle|, config.epsilon) + 1.0;
    var robot := SomeRobotStaysIdle(idle, available, config, benefit, result);
    benefit' := Favouring(robot, worth);
    g := DispatchWith(idle, available, robot);
    FavouringIsLevel(idle, available, robot, worth);
    LevelAuctionsIgnoreBenefits(idle, available, config, benefit, benefit', result);
    FavouredTotal(robot, worth, g);
    FavouredTotal(robot, worth, RealPart(Chosen(result)));
  }

  /**
   Exactly when there is a task for every idle robot are auctions near optimal in
   real benefit, whatever the benefits; with surplus robots, only in gain.
   */
  lemma RealBenefitIsGuaranteedIff(idle: seq<AgentId>, available: seq<TaskId>, config: RoundConfig)
    requires IsSupply(idle, available)
    ensures RealBenefitIsGuaranteed(idle, available, config) <==> |idle| <= |available|
  {
    if |idle| <= |available| {
      forall benefit, result, g
        | OfferAuctioned(idle, available, config, benefit, result) && IsDispatch(idle, available, g)
        ensures Guaranteed(idle, config, benefit, result, g)
      {
        AuctionIsNearBest(idle, available, config, benefit, result, g);
      }
    } else {
      var level := Favouring(idle[0], 0.0);
      OffersAreAuctioned(idle, available, config, level);
      var result :| OfferAuctioned(idle, available, config, level, result);
      var benefit, g := SurplusMayMissTheBest(idle, available, config, level, result);
    }
  }

  lemma AuctionIsNearBest(idle: seq<AgentId>, available: seq<TaskId>, config: RoundConfig,
                          benefit: (AgentId, TaskId) -> real, result: RoundResult, g: map<AgentId, TaskId>)
    requires IsSupply(idle, available) && |idle| <= |available|
    requires OfferAuctioned(idle, available, config, benefit, result) && IsDispatch(idle, available, g)
    ensures Guaranteed(idle, config, benefit, result, g)
  {
    var rows :| IsOffer(idle, available, benefit, rows)
                && Auctioned(idle, rows, Offered(available, Deficit(idle, available)), config, result);
    AuctionedHonours(idle, rows, Offered(available, Deficit(idle, available)), config, result);
    DispatchIsNearBest(idle, available, benefit, rows, config, result, g);
  }
}
