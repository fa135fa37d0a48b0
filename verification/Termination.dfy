/**
 Every round comes to rest, under any loss pattern and any finite delays: bids
 run out, then news runs out, then the quiet counts fill up, then the queue
 drains. At that point the event loop stops.
 */
module Termination {
  import opened Types
  import opened Prices
  import opened Engine
  import opened Auction
  import opened Transport
  import opened Rounds
  import opened BidBound
  import opened Refinement
  import opened Agreement
  import opened Propagation
  import opened Sums
  import opened Sets

  /** Agent `a` as it is after the deliveries of iteration k, before it ticks. */
  ghost function Delivered(h: History, k: nat, a: AgentId): AgentState
    requires a in h.trial.inst.rows
  {
    assert TypedAt(h, k);
    IterateAgent(h.trial, h.states(k), k, a);
    DeliverEach(h.states(k).agents, Due(h.states(k), k))[a]
  }

  /** The agent bids in iteration k. */
  ghost predicate BidsAt(h: History, k: nat, a: AgentId)
    requires a in h.trial.inst.rows
  {
    assert TypedAt(h, k);
    IterateAgent(h.trial, h.states(k), k, a);
    Outbid(a, Delivered(h, k, a))
  }

  /** From delivery to the end of the tick. */
  lemma NextAgent(h: History, k: nat, a: AgentId)
    requires a in h.trial.inst.rows
    ensures Fits(h.trial.inst.rows[a], Delivered(h, k, a))
    ensures AgentAt(h, k + 1, a) == TickState(a, h.trial.inst.rows[a], h.trial.inst.config, Delivered(h, k, a))
    ensures Below(TableAt(h, k, a), Delivered(h, k, a).table)
    ensures Below(Delivered(h, k, a).table, TableAt(h, k + 1, a))
    ensures var st := AgentAt(h, k, a);
            && Delivered(h, k, a).quiescentTicks == st.quiescentTicks
            && Delivered(h, k, a).dirty == (st.dirty || Delivered(h, k, a).table != st.table)
  {
    assert TypedAt(h, k) && Follows(h, k);
    IterateAgent(h.trial, h.states(k), k, a);
    DeliveryCovers(h.states(k).agents, Due(h.states(k), k), a);
    DeliveryMarksChanges(h.states(k).agents, Due(h.states(k), k), a);
    TickGrows(a, h.trial.inst.rows[a], h.trial.inst.config, Delivered(h, k, a));
  }

  // ------------------------------------------------------------ bids run out

  ghost function TotalAt(h: History, k: nat, a: AgentId): real
    requires a in h.trial.inst.rows
  {
    Worth(TableAt(h, k, a))
  }

  lemma NextTotal(h: History, k: nat, a: AgentId)
    requires a in h.trial.inst.rows
    ensures TotalAt(h, k + 1, a) >= TotalAt(h, k, a) + if BidsAt(h, k, a) then h.trial.inst.config.epsilon else 0.0
  {
    var mid := Delivered(h, k, a);
    NextAgent(h, k, a);
    GrowthRaisesTotal(TableAt(h, k, a), mid.table);
    GrowthRaisesTotal(mid.table, TableAt(h, k + 1, a));
    if BidsAt(h, k, a) {
      BidRaisesTotal(a, h.trial.inst.rows[a], h.trial.inst.config, mid);
    }
  }

  lemma TotalsGrow(h: History, j: nat, k: nat, a: AgentId)
    requires j <= k && a in h.trial.inst.rows
    ensures TotalAt(h, j, a) <= TotalAt(h, k, a)
  {
    TablesGrow(h, j, k, a);
    GrowthRaisesTotal(TableAt(h, j, a), TableAt(h, k, a));
  }

  /** Own prices can never exceed `bound` (shown for m >= n by the price ceiling). */
  ghost predicate TotalsBounded(h: History, a: AgentId, bound: real)
    requires a in h.trial.inst.rows
  {
    forall k: nat :: TotalAt(h, k, a) <= bound
  }

  lemma TotalIsBounded(h: History, k: nat, a: AgentId, spread: real)
    requires h.trial.backlog == [] && |h.trial.inst.rows| <= |h.trial.inst.tasks|
    requires Spread(h.trial.inst, spread) && spread >= 0.0 && a in h.trial.inst.rows
    ensures TotalAt(h, k, a) <= PriceLimit(h.trial.inst, spread)
  {
    RoundTotal(h, k, spread, a);
  }

  lemma TotalsAreBounded(h: History, a: AgentId, spread: real)
    requires h.trial.backlog == [] && |h.trial.inst.rows| <= |h.trial.inst.tasks|
    requires Spread(h.trial.inst, spread) && spread >= 0.0 && a in h.trial.inst.rows
    ensures TotalsBounded(h, a, PriceLimit(h.trial.inst, spread))
  {
    forall k: nat {
      TotalIsBounded(h, k, a, spread);
    }
  }

  ghost predicate NoBidsFrom(h: History, a: AgentId, j: nat)
    requires a in h.trial.inst.rows
  {
    forall k: nat | k >= j :: !BidsAt(h, k, a)
  }

  /** With room for `budget` more bids there is a last one. */
  lemma {:induction false} BidsEndWithin(h: History, a: AgentId, bound: real, j: nat, budget: nat) returns (last: nat)
    requires a in h.trial.inst.rows && TotalsBounded(h, a, bound)
    requires TotalAt(h, j, a) + Times(budget, h.trial.inst.config.epsilon) > bound
    ensures last >= j && NoBidsFrom(h, a, last)
    decreases budget
  {
    if k: nat :| k >= j && BidsAt(h, k, a) {
      TotalsGrow(h, j, k, a);
      NextTotal(h, k, a);
      assert TotalAt(h, j, a) <= bound;
      last := BidsEndWithin(h, a, bound, k + 1, budget - 1);
    } else {
      last := j;
    }
  }

  /** Enough steps of size `step` exceed any bound. */
  lemma Archimedes(step: real, bound: real) returns (n: nat)
    requires step > 0.0
    ensures Times(n, step) > bound
  {
    n := if bound < 0.0 then 1 else (bound / step).Floor + 1;
    TimesIsProduct(n, step);
    if bound >= 0.0 {
      assert n as real > bound / step;
      assert n as real * step > (bound / step) * step;
    }
  }

  lemma BidsEnd(h: History, a: AgentId, bound: real) returns (last: nat)
    requires a in h.trial.inst.rows && TotalsBounded(h, a, bound)
    ensures NoBidsFrom(h, a, last)
  {
    var budget := Archimedes(h.trial.inst.config.epsilon, bound - TotalAt(h, 0, a));
    last := BidsEndWithin(h, a, bound, 0, budget);
  }

  lemma {:induction false} AllBidsEnd(h: History, ids: set<AgentId>, bound: real) returns (last: nat)
    requires ids <= h.trial.inst.rows.Keys
    requires forall a | a in ids :: TotalsBounded(h, a, bound)
    ensures forall a | a in ids :: NoBidsFrom(h, a, last)
    decreases |ids|
  {
    if ids == {} {
      last := 0;
    } else {
      var a := Pick(ids);
      var here := BidsEnd(h, a, bound);
      var others := AllBidsEnd(h, ids - {a}, bound);
      last := if here >= others then here else others;
      forall b | b in ids ensures NoBidsFrom(h, b, last) {
        if b != a {
          assert NoBidsFrom(h, b, others);
        }
      }
    }
  }

  // ------------------------------------------------------------ news runs out

  /** Nobody bids from iteration j on. */
  ghost predicate NoBids(h: History, j: nat) {
    forall a | a in h.trial.inst.rows :: NoBidsFrom(h, a, j)
  }

  /** All entries for `t` that exist anywhere, in a table or in flight. */
  ghost predicate Exists(h: History, k: nat, t: TaskId, e: PriceEntry) {
    || (exists a | a in h.trial.inst.rows :: HasEntry(TableAt(h, k, a), t, e))
    || (exists p | p in h.states(k).queue :: HasEntry(p.message.entries, t, e))
  }

  ghost predicate HasEntry(table: Table, t: TaskId, e: PriceEntry) {
    t in table && table[t] == e
  }

  /** A join invents nothing. */
  lemma {:induction false} JoinAllEntries(ours: Table, incoming: seq<Table>, t: TaskId)
    requires t in ours
    ensures t in JoinAll(ours, incoming)
    ensures var e := JoinAll(ours, incoming)[t];
            e == ours[t] || exists i | 0 <= i < |incoming| :: HasEntry(incoming[i], t, e)
    decreases |incoming|
  {
    if incoming != [] {
      var init, last := incoming[..|incoming| - 1], incoming[|incoming| - 1];
      JoinAllEntries(ours, init, t);
      var e := JoinAll(ours, incoming)[t];
      if e == JoinAll(ours, init)[t] {
        if e != ours[t] {
          var i :| 0 <= i < |init| && HasEntry(init[i], t, e);
          assert incoming[i] == init[i];
        }
      } else {
        assert HasEntry(incoming[|incoming| - 1], t, e);
      }
    }
  }

  /** What an agent knows after delivery it knew before, or was queued. */
  lemma DeliveredEntries(h: History, k: nat, a: AgentId, t: TaskId)
    requires a in h.trial.inst.rows && t in h.trial.inst.tasks
    ensures t in Delivered(h, k, a).table && Exists(h, k, t, Delivered(h, k, a).table[t])
  {
    assert TypedAt(h, k);
    var agents, due := h.states(k).agents, Due(h.states(k), k);
    var inbox := Inbox(due, a);
    var foreign := Foreign(a, inbox);
    TableKeys(h, k, a);
    DeliverEachByAgent(agents, due, a);
    HandleAllJoins(a, agents[a], inbox);
    JoinAllEntries(TableAt(h, k, a), foreign, t);
    var e := Delivered(h, k, a).table[t];
    if e == TableAt(h, k, a)[t] {
      assert HasEntry(TableAt(h, k, a), t, e);
    } else {
      var i :| 0 <= i < |foreign| && HasEntry(foreign[i], t, e);
      ForeignIsQueued(h, k, a, foreign[i]);
    }
  }

  lemma ForeignIsQueued(h: History, k: nat, a: AgentId, table: Table)
    requires a in h.trial.inst.rows && table in Foreign(a, Inbox(Due(h.states(k), k), a))
    ensures exists p | p in h.states(k).queue :: p.message.entries == table
  {
    assert TypedAt(h, k);
    var due := Due(h.states(k), k);
    ForeignMembers(a, Inbox(due, a), table);
    var m :| m in Inbox(due, a) && m.sender != a && m.entries == table;
    InboxMembers(due, a, m);
    var p :| p in due && p.dest == a && p.message == m;
    LaterMembers(h.states(k), k, p);
  }

  /** Without a bid, every entry after an iteration existed before it. */
  lemma QuietIterationInventsNothing(h: History, k: nat, a: AgentId, t: TaskId)
    requires a in h.trial.inst.rows && t in h.trial.inst.tasks && !BidsAt(h, k, a)
    ensures TableAt(h, k + 1, a) == Delivered(h, k, a).table
    ensures t in TableAt(h, k + 1, a) && Exists(h, k, t, TableAt(h, k + 1, a)[t])
  {
    NextAgent(h, k, a);
    DeliveredEntries(h, k, a, t);
  }

  lemma EntriesShrink(h: History, k: nat, t: TaskId, e: PriceEntry)
    requires forall a | a in h.trial.inst.rows :: !BidsAt(h, k, a)
    requires t in h.trial.inst.tasks && Exists(h, k + 1, t, e)
    ensures Exists(h, k, t, e)
  {
    if a :| a in h.trial.inst.rows && HasEntry(TableAt(h, k + 1, a), t, e) {
      QuietIterationInventsNothing(h, k, a, t);
    } else {
      // A freshly sent packet repeats a table, so this one was queued already.
      var p :| p in h.states(k + 1).queue && HasEntry(p.message.entries, t, e);
      NextQueue(h, k, p);
    }
  }

  /** An existing entry that agent `a` has yet to see. */
  datatype News = News(agent: AgentId, task: TaskId, entry: PriceEntry)

  ghost predicate IsNews(h: History, k: nat, n: News) {
    && n.agent in h.trial.inst.rows && n.task in h.trial.inst.tasks
    && Exists(h, k, n.task, n.entry)
    && n.task in TableAt(h, k, n.agent) && Less(TableAt(h, k, n.agent)[n.task], n.entry)
  }

  /** Every entry in a table or in flight, a finite set. */
  ghost function Entries(h: History, k: nat): set<PriceEntry> {
    (set a, t | a in h.trial.inst.rows && t in TableAt(h, k, a) :: TableAt(h, k, a)[t])
    + (set p, t | p in h.states(k).queue && t in p.message.entries :: p.message.entries[t])
  }

  /** All news, a finite set: the measure of this phase. */
  ghost function AllNews(h: History, k: nat): set<News> {
    set a, t, e | a in h.trial.inst.rows && t in h.trial.inst.tasks && e in Entries(h, k)
                  && IsNews(h, k, News(a, t, e)) :: News(a, t, e)
  }

  lemma AllNewsMembers(h: History, k: nat, n: News)
    ensures n in AllNews(h, k) <==> IsNews(h, k, n)
  {
    if IsNews(h, k, n) {
      assert n.entry in Entries(h, k);
      assert n == News(n.agent, n.task, n.entry);
    }
  }

  /** News at k + 1 was news at k, when nobody bids in between. */
  lemma NewsIsOld(h: History, k: nat, n: News)
    requires forall a | a in h.trial.inst.rows :: !BidsAt(h, k, a)
    requires IsNews(h, k + 1, n)
    ensures IsNews(h, k, n)
  {
    EntriesShrink(h, k, n.task, n.entry);
    NextTableGrows(h, k, n.agent);
  }

  /** A changed entry was news before, and is none afterwards. */
  lemma ChangeUsesUpNews(h: History, k: nat, a: AgentId) returns (n: News)
    requires a in h.trial.inst.rows && !BidsAt(h, k, a) && TableAt(h, k + 1, a) != TableAt(h, k, a)
    ensures IsNews(h, k, n) && !IsNews(h, k + 1, n)
  {
    NextTableGrows(h, k, a);
    TableKeys(h, k, a);
    var t :| t in TableAt(h, k, a) && TableAt(h, k + 1, a)[t] != TableAt(h, k, a)[t];
    QuietIterationInventsNothing(h, k, a, t);
    n := News(a, t, TableAt(h, k + 1, a)[t]);
  }

  lemma NewsShrinks(h: History, k: nat)
    requires forall a | a in h.trial.inst.rows :: !BidsAt(h, k, a)
    ensures AllNews(h, k + 1) <= AllNews(h, k)
    ensures (exists a | a in h.trial.inst.rows :: TableAt(h, k + 1, a) != TableAt(h, k, a))
            ==> |AllNews(h, k + 1)| < |AllNews(h, k)|
  {
    forall n | n in AllNews(h, k + 1) ensures n in AllNews(h, k) {
      AllNewsMembers(h, k + 1, n);
      NewsIsOld(h, k, n);
      AllNewsMembers(h, k, n);
    }
    SubsetCardinality(AllNews(h, k + 1), AllNews(h, k));
    if a :| a in h.trial.inst.rows && TableAt(h, k + 1, a) != TableAt(h, k, a) {
      var n := ChangeUsesUpNews(h, k, a);
      AllNewsMembers(h, k + 1, n);
      AllNewsMembers(h, k, n);
    }
  }

  lemma NoBidAt(h: History, j: nat, k: nat)
    requires NoBids(h, j) && j <= k
    ensures forall a | a in h.trial.inst.rows :: !BidsAt(h, k, a)
  {
    forall a | a in h.trial.inst.rows ensures !BidsAt(h, k, a) {
      assert NoBidsFrom(h, a, j);
    }
  }

  lemma NewsCountShrinks(h: History, j: nat, k: nat)
    requires NoBids(h, j) && j <= k
    ensures |AllNews(h, k + 1)| <= |AllNews(h, k)|
  {
    NoBidAt(h, j, k);
    NewsShrinks(h, k);
    SubsetCardinality(AllNews(h, k + 1), AllNews(h, k));
  }

  lemma NewsShrinksFurther(h: History, j: nat, k: nat)
    requires NoBids(h, j) && j <= k
    ensures |AllNews(h, k)| <= |AllNews(h, j)|
  {
    var count := (i: nat) => |AllNews(h, i)|;
    forall i: nat | i >= j ensures DoesNotRise(count, i) {
      NewsCountShrinks(h, j, i);
    }
    NeverRises(count, j, k);
  }

  ghost predicate DoesNotRise(count: nat -> nat, i: nat) {
    count(i + 1) <= count(i)
  }

  lemma NeverRises(count: nat -> nat, j: nat, k: nat)
    requires j <= k && forall i: nat | i >= j :: DoesNotRise(count, i)
    ensures count(k) <= count(j)
  {
    for i := j to k
      invariant count(i) <= count(j)
    {
      assert DoesNotRise(count, i);
    }
  }

  /** No table changes from iteration j on. */
  ghost predicate Still(h: History, j: nat) {
    forall k: nat, a | k >= j && a in h.trial.inst.rows :: StillAt(h, k, a)
  }

  ghost predicate StillAt(h: History, k: nat, a: AgentId)
    requires a in h.trial.inst.rows
  {
    TableAt(h, k + 1, a) == TableAt(h, k, a)
  }

  /** Once bids have run out, so do changes. */
  lemma {:induction false} NewsEnds(h: History, j: nat) returns (still: nat)
    requires NoBids(h, j)
    ensures still >= j && Still(h, still)
    decreases |AllNews(h, j)|
  {
    var news := |AllNews(h, j)|;
    if k: nat, a :| k >= j && a in h.trial.inst.rows && !StillAt(h, k, a) {
      NewsShrinksFurther(h, j, k);
      NoBidAt(h, j, k);
      NewsShrinks(h, k);
      NoBidsLater(h, j, k + 1);
      assert |AllNews(h, k + 1)| < news;
      still := NewsEnds(h, k + 1);
    } else {
      still := j;
    }
  }

  lemma NoBidsLater(h: History, j: nat, k: nat)
    requires NoBids(h, j) && j <= k
    ensures NoBids(h, k)
  {
    forall a | a in h.trial.inst.rows ensures NoBidsFrom(h, a, k) {
      assert NoBidsFrom(h, a, j);
    }
  }

  // ------------------------------------------------------- counts fill, queue drains

  /** Without a bid and without a change the quiet count grows with every tick after the first. */
  lemma StillCountGrows(h: History, k: nat, a: AgentId)
    requires k > 0 && a in h.trial.inst.rows && StillAt(h, k, a) && !BidsAt(h, k, a)
    ensures AgentAt(h, k + 1, a).quiescentTicks == AgentAt(h, k, a).quiescentTicks + 1
  {
    CleanAfterTick(h, k, a);
    NextAgent(h, k, a);
    BelowIsAntisymmetric(TableAt(h, k, a), Delivered(h, k, a).table);
  }

  lemma QuietCountIsNatural(h: History, k: nat, a: AgentId)
    requires a in h.trial.inst.rows
    ensures AgentAt(h, k, a).quiescentTicks >= 0
  {
    for i := 0 to k
      invariant AgentAt(h, i, a).quiescentTicks >= 0
    {
      NextQuietCount(h, i, a);
    }
  }

  lemma StillCountsFill(h: History, j: nat, k: nat, a: AgentId)
    requires NoBids(h, j) && Still(h, j) && 0 < j <= k && a in h.trial.inst.rows
    ensures AgentAt(h, k, a).quiescentTicks >= k - j
  {
    QuietCountIsNatural(h, j, a);
    for i := j to k
      invariant AgentAt(h, i, a).quiescentTicks >= i - j
    {
      NoBidAt(h, j, i);
      assert StillAt(h, i, a);
      StillCountGrows(h, i, a);
    }
  }

  /** Every agent counts itself terminated from iteration j on. */
  ghost predicate AllTerminated(h: History, j: nat) {
    forall k: nat, a | k >= j && a in h.trial.inst.rows :: Terminated(h.trial.inst.config, AgentAt(h, k, a))
  }

  lemma CountsFill(h: History, j: nat) returns (silent: nat)
    requires NoBids(h, j) && Still(h, j) && 0 < j
    ensures silent > 0 && AllTerminated(h, silent)
  {
    silent := j + h.trial.inst.config.quiescenceRounds;
    forall k: nat, a | k >= silent && a in h.trial.inst.rows
      ensures Terminated(h.trial.inst.config, AgentAt(h, k, a))
    {
      StillCountsFill(h, j, k, a);
    }
  }

  /** Silent agents send nothing, so the queue only drains. */
  lemma SilentQueueDrains(h: History, k: nat, p: Packet)
    requires forall a | a in h.trial.inst.rows :: Terminated(h.trial.inst.config, AgentAt(h, k + 1, a))
    requires p in h.states(k + 1).queue
    ensures p in h.states(k).queue && p.due > k
  {
    NextQueue(h, k, p);
    if a :| a in h.trial.inst.rows && SentBy(h.trial.inst, h.trial.network, a, AgentAt(h, k + 1, a), k, p) {
      assert Terminated(h.trial.inst.config, AgentAt(h, k + 1, a));
    }
  }

  ghost predicate LeftOver(h: History, j: nat, k: nat) {
    forall p | p in h.states(k).queue :: p in h.states(j).queue && (k > j ==> p.due >= k)
  }

  lemma LeftOvers(h: History, j: nat, k: nat)
    requires AllTerminated(h, j) && j <= k
    ensures LeftOver(h, j, k)
  {
    for i := j to k
      invariant LeftOver(h, j, i)
    {
      forall p | p in h.states(i + 1).queue ensures p in h.states(j).queue && p.due >= i + 1 {
        SilentQueueDrains(h, i, p);
      }
    }
  }

  lemma {:induction false} LastDue(queue: seq<Packet>) returns (last: nat)
    ensures forall p | p in queue :: p.due <= last
    decreases |queue|
  {
    last := 0;
    for i := 0 to |queue|
      invariant forall j | 0 <= j < i :: queue[j].due <= last
    {
      if queue[i].due > last {
        last := queue[i].due;
      }
    }
  }

  lemma HeadIsMember(queue: seq<Packet>)
    ensures queue != [] ==> queue[0] in queue
  {
  }

  lemma QueueDrains(h: History, j: nat) returns (k: nat)
    requires AllTerminated(h, j)
    ensures k >= j && h.states(k).queue == []
  {
    var last := LastDue(h.states(j).queue);
    k := if last >= j then last + 1 else j + 1;
    LeftOvers(h, j, k);
    HeadIsMember(h.states(k).queue);
  }

  lemma TerminatedAndDrainedIsQuiet(h: History, k: nat)
    requires forall a | a in h.trial.inst.rows :: Terminated(h.trial.inst.config, AgentAt(h, k, a))
    requires h.states(k).queue == []
    ensures Quiet(h.trial.inst.config, h.states(k))
  {
    forall a | a in h.states(k).agents ensures Terminated(h.trial.inst.config, h.states(k).agents[a]) {
      assert TypedAt(h, k);
      assert Terminated(h.trial.inst.config, AgentAt(h, k, a));
    }
  }

  lemma AllBidsRunOut(h: History) returns (last: nat)
    requires h.trial.backlog == [] && |h.trial.inst.rows| <= |h.trial.inst.tasks|
    ensures last > 0 && NoBids(h, last)
  {
    var spread := SpreadExists(h.trial.inst);
    var bound := PriceLimit(h.trial.inst, spread);
    forall a | a in h.trial.inst.rows ensures TotalsBounded(h, a, bound) {
      TotalsAreBounded(h, a, spread);
    }
    var bids := AllBidsEnd(h, h.trial.inst.rows.Keys, bound);
    last := bids + 1;
    NoBidsLater(h, bids, last);
  }

  /** Finitely many benefits have a finite spread. */
  lemma {:induction false} BenefitsAreBounded(inst: Instance, pairs: set<(AgentId, TaskId)>) returns (bound: real)
    requires forall p | p in pairs :: p.0 in inst.rows
    ensures bound >= 0.0
    ensures forall p | p in pairs :: -bound <= inst.rows[p.0].benefit(p.1) <= bound
    decreases |pairs|
  {
    if pairs == {} {
      bound := 0.0;
    } else {
      var p := Pick(pairs);
      var rest := BenefitsAreBounded(inst, pairs - {p});
      var b := inst.rows[p.0].benefit(p.1);
      var size := if b >= 0.0 then b else -b;
      bound := if rest >= size then rest else size;
    }
  }

  lemma SpreadExists(inst: Instance) returns (spread: real)
    ensures spread >= 0.0 && Spread(inst, spread)
  {
    var pairs := set a, t | a in inst.rows && t in inst.tasks :: (a, t);
    var bound := BenefitsAreBounded(inst, pairs);
    spread := bound + bound;
    forall a, t, u | a in inst.rows && t in inst.tasks && u in inst.tasks
      ensures inst.rows[a].benefit(t) - inst.rows[a].benefit(u) <= spread
    {
      assert (a, t) in pairs && (a, u) in pairs;
    }
  }

  /**
   Every round with at least as many tasks as agents reaches a state in which
   the event loop stops, whatever is lost and however long packets take.
   */
  lemma EveryRoundComesToRest(h: History) returns (k: nat)
    requires h.trial.backlog == [] && |h.trial.inst.rows| <= |h.trial.inst.tasks|
    ensures k > 0 && Quiet(h.trial.inst.config, h.states(k))
  {
    var bids := AllBidsRunOut(h);
    var still := NewsEnds(h, bids);
    NoBidsLater(h, bids, still);
    var silent := CountsFill(h, still);
    k := QueueDrains(h, silent);
    TerminatedAndDrainedIsQuiet(h, k);
  }
}
