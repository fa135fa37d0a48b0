/**
 How many ticks are enough, explicitly. For networks that lose packets at will,
 change their topology at will, and delay no packet by more than `delay` ticks,
 one limit serves all rounds of the same size: every table change is paid for
 by a bid, bids are bounded, and no stretch without a change is long.
 */
module TickBounds {
  import opened Types
  import opened Sets
  import opened Sums
  import opened Counting
  import opened Engine
  import opened Auction
  import opened Rounds
  import opened BidBound
  import opened Propagation
  import opened Harness
  import opened EventLoop
  import opened Termination

  // ------------------------------------------------------------ bids

  ghost function Bidders(h: History, k: nat): set<AgentId> {
    set a | a in h.trial.inst.rows && BidsAt(h, k, a)
  }

  /** How many bids each iteration sees. */
  ghost function BidCount(h: History): nat -> nat {
    (k: nat) => |Bidders(h, k)|
  }

  ghost function Totals(h: History, k: nat): map<AgentId, real> {
    map a | a in h.trial.inst.rows :: TotalAt(h, k, a)
  }

  ghost function TotalSum(h: History): nat -> real {
    (k: nat) => Sum(Totals(h, k))
  }

  /** Each bid of an iteration adds at least epsilon to the totals. */
  lemma BidsRaiseTotals(h: History, k: nat)
    ensures Sum(Totals(h, k)) + Times(|Bidders(h, k)|, h.trial.inst.config.epsilon) <= Sum(Totals(h, k + 1))
  {
    var was, now := Totals(h, k), Totals(h, k + 1);
    var raise := Each(h.trial.inst.rows.Keys, Bidders(h, k), h.trial.inst.config.epsilon);
    var sum := map a | a in h.trial.inst.rows :: was[a] + raise[a];
    forall a | a in sum ensures sum[a] <= now[a] {
      NextTotal(h, k, a);
    }
    EachSum(h.trial.inst.rows.Keys, Bidders(h, k), h.trial.inst.config.epsilon);
    SumAdd(was, raise, sum);
    SumMonotone(sum, now);
  }

  lemma InitialTotals(h: History)
    ensures Sum(Totals(h, 0)) == 0.0
  {
    forall a | a in Totals(h, 0) ensures Totals(h, 0)[a] == 0.0 {
      SumOfZeros(PriceMap(TableAt(h, 0, a)));
    }
    SumOfZeros(Totals(h, 0));
  }

  lemma BidsArePaid(h: History, k: nat)
    ensures Times(SumUntil(BidCount(h), k), h.trial.inst.config.epsilon) <= Sum(Totals(h, k))
  {
    InitialTotals(h);
    forall i ensures Raises(BidCount(h), TotalSum(h), h.trial.inst.config.epsilon, i) {
      BidsRaiseTotals(h, i);
    }
    CountedIsPaid(BidCount(h), TotalSum(h), h.trial.inst.config.epsilon, k);
  }

  ghost predicate AllTotalsAtMost(h: History, k: nat, bound: real) {
    forall a | a in h.trial.inst.rows :: TotalAt(h, k, a) <= bound
  }

  lemma TotalsAtMost(h: History, k: nat, bound: real)
    requires AllTotalsAtMost(h, k, bound)
    ensures Sum(Totals(h, k)) <= Times(|h.trial.inst.rows|, bound)
  {
    var most := map a | a in h.trial.inst.rows :: bound;
    SumMonotone(Totals(h, k), most);
    assert most.Keys == h.trial.inst.rows.Keys;
    assert |most| == |most.Keys| && |h.trial.inst.rows| == |h.trial.inst.rows.Keys|;
    SumConstant(most, bound);
  }

  lemma TotalsWithin(h: History, k: nat, spread: real)
    requires h.trial.backlog == [] && |h.trial.inst.rows| <= |h.trial.inst.tasks|
    requires Spread(h.trial.inst, spread) && spread >= 0.0
    ensures AllTotalsAtMost(h, k, PriceLimit(h.trial.inst, spread))
  {
    forall a | a in h.trial.inst.rows ensures TotalAt(h, k, a) <= PriceLimit(h.trial.inst, spread) {
      TotalIsBounded(h, k, a, spread);
    }
  }

  /** At most this many bids are placed in a round of n agents: n * n * 2 * (spread + epsilon) / epsilon. */
  function MaxBids(n: nat, spread: real, epsilon: real): (bids: int)
    requires spread >= 0.0 && epsilon > 0.0
    ensures bids >= 0
  {
    QuotientIsNatural(MostTotal(n, spread, epsilon), epsilon);
    (MostTotal(n, spread, epsilon) / epsilon).Floor
  }

  /** What the prices in n agents' tables can come to. */
  function MostTotal(n: nat, spread: real, epsilon: real): real {
    n as real * (n as real * ((spread + epsilon) + (spread + epsilon)))
  }

  lemma QuotientIsNatural(most: real, epsilon: real)
    requires most >= 0.0 && epsilon > 0.0
    ensures most / epsilon >= 0.0
  {
  }

  lemma Quotient(bids: nat, epsilon: real, most: real)
    requires epsilon > 0.0 && bids as real * epsilon <= most
    ensures bids <= (most / epsilon).Floor
  {
    var quotient := most / epsilon;
    assert quotient * epsilon == most;
    if bids as real > quotient {
      ScaleUp(quotient, bids as real, epsilon);
    }
  }

  lemma ScaleUp(x: real, y: real, epsilon: real)
    requires epsilon > 0.0 && x < y
    ensures x * epsilon < y * epsilon
  {
  }

  lemma MostIsProduct(inst: Instance, spread: real)
    ensures Times(|inst.rows|, PriceLimit(inst, spread)) == MostTotal(|inst.rows|, spread, inst.config.epsilon)
  {
    var n, epsilon := |inst.rows|, inst.config.epsilon;
    var product := n as real * ((spread + epsilon) + (spread + epsilon));
    TimesIsProduct(n, (spread + epsilon) + (spread + epsilon));
    assert PriceLimit(inst, spread) == product;
    TimesIsProduct(n, product);
  }

  lemma TotalSumIsBounded(h: History, k: nat, spread: real)
    requires h.trial.backlog == [] && |h.trial.inst.rows| <= |h.trial.inst.tasks|
    requires Spread(h.trial.inst, spread) && spread >= 0.0
    ensures Sum(Totals(h, k)) <= MostTotal(|h.trial.inst.rows|, spread, h.trial.inst.config.epsilon)
  {
    TotalsWithin(h, k, spread);
    TotalsAtMost(h, k, PriceLimit(h.trial.inst, spread));
    MostIsProduct(h.trial.inst, spread);
  }

  lemma BidsWithin(bids: nat, n: nat, spread: real, epsilon: real, total: real)
    requires spread >= 0.0 && epsilon > 0.0
    requires Times(bids, epsilon) <= total <= MostTotal(n, spread, epsilon)
    ensures bids <= MaxBids(n, spread, epsilon)
  {
    TimesIsProduct(bids, epsilon);
    Quotient(bids, epsilon, MostTotal(n, spread, epsilon));
  }

  ghost function BidLimit(inst: Instance, spread: real): nat
    requires spread >= 0.0
  {
    MaxBids(|inst.rows|, spread, inst.config.epsilon)
  }

  /** However long a round lasts, it sees no more bids than that. */
  lemma BidsAreFew(h: History, k: nat, spread: real)
    requires h.trial.backlog == [] && |h.trial.inst.rows| <= |h.trial.inst.tasks|
    requires Spread(h.trial.inst, spread) && spread >= 0.0
    ensures SumUntil(BidCount(h), k) <= BidLimit(h.trial.inst, spread)
  {
    BidsArePaid(h, k);
    TotalSumIsBounded(h, k, spread);
    BidsWithin(SumUntil(BidCount(h), k), |h.trial.inst.rows|, spread, h.trial.inst.config.epsilon, Sum(Totals(h, k)));
  }

  // ------------------------------------------------------------ every change is paid for by a bid

  /** Some table changes in iteration k. */
  ghost predicate ChangesIn(h: History, k: nat) {
    exists a | a in h.trial.inst.rows :: !StillAt(h, k, a)
  }

  ghost function ChangeCount(h: History): nat -> nat {
    (k: nat) => if ChangesIn(h, k) then 1 else 0
  }

  /** How much news there is. */
  ghost function NewsCount(h: History): nat -> nat {
    (k: nat) => |AllNews(h, k)|
  }

  /** The entry that bidder `b` has just made. */
  ghost function BidEntry(h: History, k: nat, b: AgentId): (TaskId, PriceEntry)
    requires b in Bidders(h, k)
  {
    var before, row := Delivered(h, k, b), h.trial.inst.rows[b];
    NextAgent(h, k, b);
    var best := BestTask(row, before.table);
    (best, PriceEntry(before.table[best].price + Increment(row, before.table, h.trial.inst.config.epsilon), b))
  }

  /** Apart from that entry a bidder has only entries that existed before. */
  lemma BidderEntries(h: History, k: nat, b: AgentId, t: TaskId)
    requires b in Bidders(h, k) && t in h.trial.inst.tasks
    ensures t in TableAt(h, k + 1, b)
    ensures var e := TableAt(h, k + 1, b)[t]; Exists(h, k, t, e) || BidEntry(h, k, b) == (t, e)
  {
    NextAgent(h, k, b);
    DeliveredEntries(h, k, b, t);
  }

  /** An entry in some table after the iteration existed before, or was just bid. */
  lemma EntryAppears(h: History, k: nat, t: TaskId, e: PriceEntry)
    requires t in h.trial.inst.tasks && Exists(h, k + 1, t, e)
    ensures Exists(h, k, t, e) || exists b | b in Bidders(h, k) :: BidEntry(h, k, b) == (t, e)
  {
    if a :| a in h.trial.inst.rows && HasEntry(TableAt(h, k + 1, a), t, e) {
      if BidsAt(h, k, a) {
        assert a in Bidders(h, k);
        BidderEntries(h, k, a, t);
      } else {
        QuietIterationInventsNothing(h, k, a, t);
      }
    } else {
      // A freshly sent packet repeats a table, so this one was queued already.
      var p :| p in h.states(k + 1).queue && HasEntry(p.message.entries, t, e);
      NextQueue(h, k, p);
    }
  }

  /** The news that one bid makes. */
  ghost function NewsOf(h: History, k: nat, b: AgentId): set<News>
    requires b in Bidders(h, k)
  {
    set a | a in h.trial.inst.rows :: News(a, BidEntry(h, k, b).0, BidEntry(h, k, b).1)
  }

  ghost function NewsByBidder(h: History, k: nat): AgentId -> set<News> {
    (b: AgentId) => if b in Bidders(h, k) then NewsOf(h, k, b) else {}
  }

  lemma NewsOfSize(h: History, k: nat, b: AgentId)
    requires b in Bidders(h, k)
    ensures |NewsOf(h, k, b)| <= |h.trial.inst.rows|
  {
    var t, e := BidEntry(h, k, b).0, BidEntry(h, k, b).1;
    ImageSize(h.trial.inst.rows.Keys, NewsOf(h, k, b), a => News(a, t, e));
  }

  lemma NewsAppears(h: History, k: nat, n: News)
    requires IsNews(h, k + 1, n)
    ensures IsNews(h, k, n) || exists b | b in Bidders(h, k) :: n in NewsOf(h, k, b)
  {
    EntryAppears(h, k, n.task, n.entry);
    if Exists(h, k, n.task, n.entry) {
      NextTableGrows(h, k, n.agent);
    } else {
      var b :| b in Bidders(h, k) && BidEntry(h, k, b) == (n.task, n.entry);
      assert n == News(n.agent, BidEntry(h, k, b).0, BidEntry(h, k, b).1);
      assert n in NewsOf(h, k, b);
    }
  }

  /** Each bid makes news for at most n agents. */
  lemma NewsGrowsByBids(h: History, k: nat)
    ensures |AllNews(h, k + 1)| <= |AllNews(h, k)| + Multiple(|Bidders(h, k)|, |h.trial.inst.rows|)
  {
    var latest := AllNews(h, k + 1) - AllNews(h, k);
    forall n | n in latest ensures exists b :: b in Bidders(h, k) && n in NewsByBidder(h, k)(b) {
      AllNewsMembers(h, k + 1, n);
      AllNewsMembers(h, k, n);
      NewsAppears(h, k, n);
      var b :| b in Bidders(h, k) && n in NewsOf(h, k, b);
      assert n in NewsByBidder(h, k)(b);
    }
    forall b | b in Bidders(h, k) ensures |NewsByBidder(h, k)(b)| <= |h.trial.inst.rows| {
      NewsOfSize(h, k, b);
    }
    UnionSize(Bidders(h, k), latest, NewsByBidder(h, k), |h.trial.inst.rows|);
    SubsetCardinality(AllNews(h, k + 1), latest + AllNews(h, k));
  }

  lemma NothingNewAtFirst(h: History)
    requires h.trial.backlog == []
    ensures AllNews(h, 0) == {}
  {
    forall n ensures n !in AllNews(h, 0) {
      AllNewsMembers(h, 0, n);
    }
  }

  /** A change in an iteration without a bid uses up some news. */
  lemma ChangeIsNews(h: History, k: nat)
    requires Bidders(h, k) == {}
    ensures |AllNews(h, k + 1)| + (if ChangesIn(h, k) then 1 else 0) <= |AllNews(h, k)|
  {
    forall a | a in h.trial.inst.rows ensures !BidsAt(h, k, a) {
      assert a !in Bidders(h, k);
    }
    NewsShrinks(h, k);
    SubsetCardinality(AllNews(h, k + 1), AllNews(h, k));
  }

  /** Each bid pays for a change of its own, and one at every agent that has yet to learn of it. */
  lemma ChangeIsPaid(h: History, k: nat)
    ensures |AllNews(h, k + 1)| + (if ChangesIn(h, k) then 1 else 0)
            <= |AllNews(h, k)| + Multiple(|Bidders(h, k)|, |h.trial.inst.rows| + 1)
  {
    if Bidders(h, k) == {} {
      ChangeIsNews(h, k);
    } else {
      NewsGrowsByBids(h, k);
      MultipleNext(|Bidders(h, k)|, |h.trial.inst.rows|);
    }
  }

  lemma PaysIn(h: History, price: nat, k: nat)
    requires price == |h.trial.inst.rows| + 1
    ensures Pays(ChangeCount(h), NewsCount(h), BidCount(h), price, k)
  {
    ChangeIsPaid(h, k);
  }

  lemma NothingCountedAtFirst(h: History)
    requires h.trial.backlog == []
    ensures NewsCount(h)(0) == 0
  {
    NothingNewAtFirst(h);
  }

  /** So a round of few bids has few changes, however long it lasts. */
  lemma ChangesAreFew(h: History, k: nat)
    requires h.trial.backlog == []
    ensures SumUntil(ChangeCount(h), k) <= Multiple(SumUntil(BidCount(h), k), |h.trial.inst.rows| + 1)
  {
    var price := |h.trial.inst.rows| + 1;
    forall i ensures Pays(ChangeCount(h), NewsCount(h), BidCount(h), price, i) {
      PaysIn(h, price, i);
    }
    NothingCountedAtFirst(h);
    ChangesArePaid(ChangeCount(h), NewsCount(h), BidCount(h), price, k);
  }

  // ------------------------------------------------------------ a stretch without a change ends the round

  /** A bid changes the bidder's table. */
  lemma BidsAreChanges(h: History, k: nat, a: AgentId)
    requires a in h.trial.inst.rows && StillAt(h, k, a)
    ensures !BidsAt(h, k, a)
  {
    NextTotal(h, k, a);
  }

  /** In the iterations j to k - 1 no table changes. */
  ghost predicate StillUntil(h: History, j: nat, k: nat) {
    forall i: nat | j <= i < k :: !ChangesIn(h, i)
  }

  lemma QuietCountGrows(h: History, j: nat, k: nat, a: AgentId)
    requires StillUntil(h, j, k + 1) && 0 < j <= k && a in h.trial.inst.rows
    ensures AgentAt(h, k + 1, a).quiescentTicks == AgentAt(h, k, a).quiescentTicks + 1
  {
    assert !ChangesIn(h, k);
    assert StillAt(h, k, a);
    BidsAreChanges(h, k, a);
    StillCountGrows(h, k, a);
  }

  lemma QuietCountsGrow(h: History, j: nat, k: nat, a: AgentId)
    requires StillUntil(h, j, k) && 0 < j <= k && a in h.trial.inst.rows
    ensures AgentAt(h, k, a).quiescentTicks >= k - j
  {
    QuietCountIsNatural(h, j, a);
    for i := j to k
      invariant AgentAt(h, i, a).quiescentTicks >= i - j
    {
      QuietCountGrows(h, j, i, a);
    }
  }

  /** What is in flight before iteration k was so before iteration j, and is not due yet. */
  lemma SilentSince(h: History, j: nat, k: nat)
    requires j <= k && forall i: nat, a | j < i <= k && a in h.trial.inst.rows ::
               Terminated(h.trial.inst.config, AgentAt(h, i, a))
    ensures LeftOver(h, j, k)
  {
    for i := j to k
      invariant LeftOver(h, j, i)
    {
      forall p | p in h.states(i + 1).queue ensures p in h.states(j).queue && p.due >= i + 1 {
        SilentQueueDrains(h, i, p);
      }
    }
  }

  /** After a stretch without a change, as long as the quiet count and the longest delay, everything is quiet. */
  lemma StillStretchEndsQuiet(h: History, j: nat, delay: nat)
    requires h.trial.backlog == [] && DelaysAtMost(h.trial.network, delay) && 0 < j
    requires StillUntil(h, j, j + h.trial.inst.config.quiescenceRounds + delay)
    ensures Quiet(h.trial.inst.config, h.states(j + h.trial.inst.config.quiescenceRounds + delay))
  {
    var rounds: nat := h.trial.inst.config.quiescenceRounds;
    var silent, end := j + rounds - 1, j + rounds + delay;
    forall i: nat, a | silent < i <= end && a in h.trial.inst.rows
      ensures Terminated(h.trial.inst.config, AgentAt(h, i, a))
    {
      QuietCountsGrow(h, j, i, a);
    }
    SilentSince(h, silent, end);
    QueueIsDueSoon(h, silent, delay);
    HeadIsMember(h.states(end).queue);
    TerminatedAndDrainedIsQuiet(h, end);
  }

  // ------------------------------------------------------------ one limit for all rounds of a size

  /** Enough iterations for n agents, this spread and epsilon, these quiescence rounds and this delay. */
  function EnoughTicks(n: nat, spread: real, epsilon: real, quiescenceRounds: nat, delay: nat): nat
    requires spread >= 0.0 && epsilon > 0.0
  {
    1 + ((n + 1) * MaxBids(n, spread, epsilon) + 1) * (quiescenceRounds + delay)
  }

  ghost function TicksFor(inst: Instance, spread: real, delay: nat): nat
    requires spread >= 0.0
  {
    EnoughTicks(|inst.rows|, spread, inst.config.epsilon, inst.config.quiescenceRounds, delay)
  }

  /** How many iterations change some table, at most. */
  ghost function ChangeLimit(inst: Instance, spread: real): nat
    requires spread >= 0.0
  {
    Multiple(BidLimit(inst, spread), |inst.rows| + 1)
  }

  lemma ChangesAtMost(h: History, k: nat, spread: real)
    requires h.trial.backlog == [] && |h.trial.inst.rows| <= |h.trial.inst.tasks|
    requires Spread(h.trial.inst, spread) && spread >= 0.0
    ensures SumUntil(ChangeCount(h), k) <= ChangeLimit(h.trial.inst, spread)
  {
    BidsAreFew(h, k, spread);
    ChangesAreFew(h, k);
    MultipleGrows(SumUntil(BidCount(h), k), BidLimit(h.trial.inst, spread), |h.trial.inst.rows| + 1);
  }

  lemma TicksAreEnough(inst: Instance, spread: real, delay: nat)
    requires spread >= 0.0
    ensures 1 + Multiple(ChangeLimit(inst, spread) + 1, inst.config.quiescenceRounds + delay)
            == TicksFor(inst, spread, delay)
  {
    StretchesAreProduct(BidLimit(inst, spread), |inst.rows|, inst.config.quiescenceRounds + delay);
  }

  lemma StretchesAreProduct(bids: nat, n: nat, length: nat)
    ensures Multiple(Multiple(bids, n + 1) + 1, length) == ((n + 1) * bids + 1) * length
  {
    MultipleIsProduct(bids, n + 1);
    MultipleIsProduct((n + 1) * bids + 1, length);
  }

  /** Few changes leave a long stretch without one. */
  lemma StillStretch(h: History, most: nat, length: nat, limit: nat) returns (j: nat)
    requires limit == 1 + Multiple(most + 1, length) && SumUntil(ChangeCount(h), limit) <= most
    ensures 0 < j && j + length <= limit && StillUntil(h, j, j + length)
  {
    j := EmptyStretch(ChangeCount(h), 1, most, length);
    forall i: nat | j <= i < j + length ensures !ChangesIn(h, i) {
      NothingCounted(ChangeCount(h), j, j + length, i);
    }
  }

  /** Within that many iterations everything is quiet. */
  lemma QuietInTime(h: History, spread: real, delay: nat) returns (k: nat)
    requires h.trial.backlog == [] && |h.trial.inst.rows| <= |h.trial.inst.tasks|
    requires Spread(h.trial.inst, spread) && spread >= 0.0 && DelaysAtMost(h.trial.network, delay)
    ensures 0 < k <= TicksFor(h.trial.inst, spread, delay) && Quiet(h.trial.inst.config, h.states(k))
  {
    var j := StillStretchInTime(h, spread, delay);
    StillStretchEndsQuiet(h, j, delay);
    k := j + h.trial.inst.config.quiescenceRounds + delay;
  }

  lemma StillStretchInTime(h: History, spread: real, delay: nat) returns (j: nat)
    requires h.trial.backlog == [] && |h.trial.inst.rows| <= |h.trial.inst.tasks|
    requires Spread(h.trial.inst, spread) && spread >= 0.0
    ensures 0 < j && j + h.trial.inst.config.quiescenceRounds + delay <= TicksFor(h.trial.inst, spread, delay)
    ensures StillUntil(h, j, j + h.trial.inst.config.quiescenceRounds + delay)
  {
    var limit, length := TicksFor(h.trial.inst, spread, delay), h.trial.inst.config.quiescenceRounds + delay;
    TicksAreEnough(h.trial.inst, spread, delay);
    ChangesAtMost(h, limit, spread);
    j := StillStretch(h, ChangeLimit(h.trial.inst, spread), length, limit);
  }

  /**
   With that many ticks a round is never reported as not terminating, whatever is
   lost and however the topology changes.
   */
  lemma ExplicitTicksSuffice(h: History, spread: real, delay: nat, maxTicks: int, r: Result<RoundResult>)
    requires h.trial.backlog == [] && |h.trial.inst.rows| <= |h.trial.inst.tasks|
    requires Spread(h.trial.inst, spread) && spread >= 0.0 && DelaysAtMost(h.trial.network, delay)
    requires maxTicks >= TicksFor(h.trial.inst, spread, delay) && Explains(h, maxTicks, r)
    ensures r != Failure(DidNotTerminate)
  {
    var k := QuietInTime(h, spread, delay);
    assert !Continues(h, k - 1);
  }
}
