/**
 How fast lossless rounds converge: in the order of diameter * n * n * spread /
 epsilon iterations. Once nobody bids for as long as a table needs to travel,
 nobody has anything left to learn, and the round comes to rest.
 */
module Convergence {
  import opened Types
  import opened Counting
  import opened Prices
  import opened Auction
  import opened Transport
  import opened Rounds
  import opened BidBound
  import opened Agreement
  import opened Distances
  import opened Propagation
  import opened Harness
  import opened EventLoop
  import opened Termination
  import opened Guarantees
  import opened TickBounds

  // ------------------------------------------------------------ what exists is known

  /** What is in flight its sender knows. */
  ghost predicate SendersKnow(h: History, k: nat) {
    forall p | p in h.states(k).queue ::
      p.message.sender in h.trial.inst.rows && BelowWhereKnown(p.message.entries, TableAt(h, k, p.message.sender))
  }

  lemma NextSendersKnow(h: History, k: nat)
    requires SendersKnow(h, k)
    ensures SendersKnow(h, k + 1)
  {
    forall p | p in h.states(k + 1).queue
      ensures p.message.sender in h.trial.inst.rows
              && BelowWhereKnown(p.message.entries, TableAt(h, k + 1, p.message.sender))
    {
      NextQueue(h, k, p);
      if p in h.states(k).queue {
        NextTableGrows(h, k, p.message.sender);
        BelowFurther(p.message.entries, TableAt(h, k, p.message.sender), TableAt(h, k + 1, p.message.sender));
      }
    }
  }

  lemma AllSendersKnow(h: History, k: nat)
    requires h.trial.backlog == []
    ensures SendersKnow(h, k)
  {
    for i := 0 to k
      invariant SendersKnow(h, i)
    {
      NextSendersKnow(h, i);
    }
  }

  /** Agent `a` knows an entry for `t` no smaller than `e`. */
  ghost predicate KnowsOf(h: History, k: nat, a: AgentId, t: TaskId, e: PriceEntry)
    requires a in h.trial.inst.rows
  {
    t in TableAt(h, k, a) && Leq(e, TableAt(h, k, a)[t])
  }

  /** Of all that exists some agent knows. */
  lemma SomebodyKnows(h: History, k: nat, t: TaskId, e: PriceEntry) returns (a: AgentId)
    requires h.trial.backlog == [] && t in h.trial.inst.tasks && Exists(h, k, t, e)
    ensures a in h.trial.inst.rows && KnowsOf(h, k, a, t, e)
  {
    if b :| b in h.trial.inst.rows && HasEntry(TableAt(h, k, b), t, e) {
      a := b;
    } else {
      var p :| p in h.states(k).queue && HasEntry(p.message.entries, t, e);
      AllSendersKnow(h, k);
      a := p.message.sender;
      TableKeys(h, k, a);
    }
  }

  /** In the iterations j to k - 1 nobody bids. */
  ghost predicate NoBidsUntil(h: History, j: nat, k: nat) {
    forall i: nat | j <= i < k :: Bidders(h, i) == {}
  }

  lemma NoBidder(h: History, j: nat, k: nat, i: nat)
    requires NoBidsUntil(h, j, k) && j <= i < k
    ensures forall a | a in h.trial.inst.rows :: !BidsAt(h, i, a)
  {
    forall a | a in h.trial.inst.rows ensures !BidsAt(h, i, a) {
      assert Bidders(h, i) == {} && a !in Bidders(h, i);
    }
  }

  /** Without a bid, whatever exists existed before. */
  lemma ExistedBefore(h: History, j: nat, k: nat, t: TaskId, e: PriceEntry)
    requires j <= k && NoBidsUntil(h, j, k) && t in h.trial.inst.tasks && Exists(h, k, t, e)
    ensures Exists(h, j, t, e)
  {
    var i := k;
    while i > j
      invariant j <= i <= k && Exists(h, i, t, e)
    {
      NoBidder(h, j, k, i - 1);
      EntriesShrink(h, i - 1, t, e);
      i := i - 1;
    }
  }

  /** Without a bid for as long as a table travels, there is no news left. */
  lemma StillAfterPropagation(h: History, topology: Topology, j: nat, k: nat, delay: nat, hops: nat, b: AgentId)
    requires 0 < j && j + Span(hops, delay) <= k && NoBidsUntil(h, j, k + 1) && h.trial.backlog == []
    requires LosslessStatic(h.trial.network, topology) && DelaysAtMost(h.trial.network, delay)
    requires Within(h.trial.inst, topology) && WithinHops(h.trial.inst, topology, hops) && b in h.trial.inst.rows
    ensures StillAt(h, k, b)
  {
    NoBidder(h, j, k + 1, k);
    NextTableGrows(h, k, b);
    TableKeys(h, k, b);
    forall t | t in TableAt(h, k, b) ensures TableAt(h, k + 1, b)[t] == TableAt(h, k, b)[t] {
      QuietIterationInventsNothing(h, k, b, t);
      var e := TableAt(h, k + 1, b)[t];
      ExistedBefore(h, j, k, t, e);
      var a := SomebodyKnows(h, j, t, e);
      TablesPropagate(h, topology, j, k, delay, a, b, hops);
    }
  }

  lemma StillStretchAfterBids(h: History, topology: Topology, j: nat, end: nat, delay: nat, hops: nat)
    requires 0 < j && j + Span(hops, delay) <= end && NoBidsUntil(h, j, end) && h.trial.backlog == []
    requires LosslessStatic(h.trial.network, topology) && DelaysAtMost(h.trial.network, delay)
    requires Within(h.trial.inst, topology) && WithinHops(h.trial.inst, topology, hops)
    ensures StillUntil(h, j + Span(hops, delay), end)
  {
    forall i: nat | j + Span(hops, delay) <= i < end ensures !ChangesIn(h, i) {
      forall b | b in h.trial.inst.rows ensures StillAt(h, i, b) {
        StillAfterPropagation(h, topology, j, i, delay, hops, b);
      }
    }
  }

  // ------------------------------------------------------------ the bound

  /** Few bids leave a long stretch without one. */
  lemma StretchWithoutBids(h: History, most: nat, length: nat, limit: nat) returns (j: nat)
    requires limit == 1 + Multiple(most + 1, length) && SumUntil(BidCount(h), limit) <= most
    ensures 0 < j && j + length <= limit && NoBidsUntil(h, j, j + length)
  {
    j := EmptyStretch(BidCount(h), 1, most, length);
    forall i: nat | j <= i < j + length ensures Bidders(h, i) == {} {
      NothingCounted(BidCount(h), j, j + length, i);
    }
  }

  /**
   Enough iterations for n agents on a lossless topology in which nobody is more
   than `hops` links away: in the order of hops * n * n * spread / epsilon.
   */
  function ConvergenceTicks(n: nat, spread: real, epsilon: real, hops: nat, quiescenceRounds: nat, delay: nat): nat
    requires spread >= 0.0 && epsilon > 0.0
  {
    1 + (MaxBids(n, spread, epsilon) + 1) * (hops * (1 + delay) + quiescenceRounds + delay)
  }

  ghost function ConvergenceFor(inst: Instance, spread: real, hops: nat, delay: nat): nat
    requires spread >= 0.0
  {
    ConvergenceTicks(|inst.rows|, spread, inst.config.epsilon, hops, inst.config.quiescenceRounds, delay)
  }

  lemma ConvergenceIsEnough(inst: Instance, spread: real, hops: nat, delay: nat)
    requires spread >= 0.0
    ensures 1 + Multiple(BidLimit(inst, spread) + 1, Span(hops, delay) + inst.config.quiescenceRounds + delay)
            == ConvergenceFor(inst, spread, hops, delay)
  {
    SpanIsProduct(hops, delay);
    MultipleIsProduct(BidLimit(inst, spread) + 1, Span(hops, delay) + inst.config.quiescenceRounds + delay);
  }

  /** Between any two bids that are far enough apart the round would have come to rest. */
  lemma LosslessRoundsConverge(h: History, topology: Topology, spread: real, delay: nat, hops: nat) returns (k: nat)
    requires h.trial.backlog == [] && |h.trial.inst.rows| <= |h.trial.inst.tasks|
    requires Spread(h.trial.inst, spread) && spread >= 0.0 && DelaysAtMost(h.trial.network, delay)
    requires LosslessStatic(h.trial.network, topology)
    requires Within(h.trial.inst, topology) && WithinHops(h.trial.inst, topology, hops)
    ensures 0 < k <= ConvergenceFor(h.trial.inst, spread, hops, delay) && Quiet(h.trial.inst.config, h.states(k))
  {
    var length := Span(hops, delay) + h.trial.inst.config.quiescenceRounds + delay;
    var j := StretchWithoutBidsInTime(h, spread, hops, delay, length);
    StillStretchAfterBids(h, topology, j, j + length, delay, hops);
    StillStretchEndsQuiet(h, j + Span(hops, delay), delay);
    k := j + length;
  }

  lemma StretchWithoutBidsInTime(h: History, spread: real, hops: nat, delay: nat, length: nat) returns (j: nat)
    requires h.trial.backlog == [] && |h.trial.inst.rows| <= |h.trial.inst.tasks|
    requires Spread(h.trial.inst, spread) && spread >= 0.0
    requires length == Span(hops, delay) + h.trial.inst.config.quiescenceRounds + delay
    ensures 0 < j && j + length <= ConvergenceFor(h.trial.inst, spread, hops, delay) && NoBidsUntil(h, j, j + length)
  {
    var limit := ConvergenceFor(h.trial.inst, spread, hops, delay);
    ConvergenceIsEnough(h.trial.inst, spread, hops, delay);
    BidsAreFew(h, limit, spread);
    j := StretchWithoutBids(h, BidLimit(h.trial.inst, spread), length, limit);
  }

  lemma HopsConnect(inst: Instance, topology: Topology, hops: nat)
    requires WithinHops(inst, topology, hops)
    ensures Connected(inst, topology)
  {
  }

  /** With that many ticks such a round returns an assignment, and all agents agree on the prices. */
  lemma LosslessRoundsSucceedInTime(h: History, topology: Topology, spread: real, delay: nat, hops: nat, maxTicks: int,
                                    r: Result<RoundResult>)
    requires h.trial.backlog == [] && 0 < |h.trial.inst.rows| <= |h.trial.inst.tasks|
    requires Spread(h.trial.inst, spread) && spread >= 0.0 && DelaysAtMost(h.trial.network, delay)
    requires LosslessStatic(h.trial.network, topology)
    requires Within(h.trial.inst, topology) && WithinHops(h.trial.inst, topology, hops)
    requires maxTicks >= ConvergenceFor(h.trial.inst, spread, hops, delay) && Explains(h, maxTicks, r)
    ensures r.Success? && AgreedAt(h, r.value.ticks, r.value.prices)
  {
    StaticLinksWithin(h.trial.inst, h.trial.network, topology);
    HopsConnect(h.trial.inst, topology, hops);
    var k := LosslessRoundsConverge(h, topology, spread, delay, hops);
    var end := FirstEnd(h, k - 1);
    LosslessRoundSucceeds(h, topology, end, maxTicks, r);
  }

  /** So does a round over any topology of its agents, with the diameter that `ComputeDiameter` returns. */
  lemma RoundsConvergeByDiameter(h: History, topology: Topology, spread: real, delay: nat, diameter: nat, maxTicks: int,
                                 r: Result<RoundResult>)
    requires h.trial.backlog == [] && 0 < |h.trial.inst.rows| <= |h.trial.inst.tasks|
    requires Spread(h.trial.inst, spread) && spread >= 0.0 && DelaysAtMost(h.trial.network, delay)
    requires LosslessStatic(h.trial.network, topology) && topology.Keys == h.trial.inst.rows.Keys
    requires Closed(topology) && IsDiameter(topology, diameter)
    requires maxTicks >= ConvergenceFor(h.trial.inst, spread, diameter, delay) && Explains(h, maxTicks, r)
    ensures r.Success? && AgreedAt(h, r.value.ticks, r.value.prices)
  {
    RoundTopology(h.trial.inst, topology);
    DiameterBoundsHops(h.trial.inst, topology, diameter);
    LosslessRoundsSucceedInTime(h, topology, spread, delay, diameter, maxTicks, r);
  }
}
