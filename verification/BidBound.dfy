/**
 How far prices can climb. While some agent holds nothing there is a free task,
 which caps every new price; once all agents hold a slot nobody bids again.
 Hence the number of bids is bounded, whatever the network does.
 */
module BidBound {
  import opened Types
  import opened Prices
  import opened Engine
  import opened Auction
  import opened Sums
  import opened Sets

  /** No agent values any task more than `spread` above any other. */
  ghost predicate Spread(inst: Instance, spread: real) {
    forall a, t, u | a in inst.rows && t in inst.tasks && u in inst.tasks ::
      inst.rows[a].benefit(t) - inst.rows[a].benefit(u) <= spread
  }

  /** Agent `a` has the largest entry for `t`, and it names `a`. */
  ghost predicate Holds(inst: Instance, s: System, a: AgentId, t: TaskId)
    requires Typed(inst, s)
  {
    && a in s.agents && t in inst.tasks
    && s.agents[a].table[t].bidder == a
    && forall b | b in s.agents :: Leq(s.agents[b].table[t], s.agents[a].table[t])
  }

  ghost predicate HoldsSlot(inst: Instance, s: System, a: AgentId)
    requires Typed(inst, s)
  {
    exists t :: Holds(inst, s, a, t)
  }

  ghost predicate AllHold(inst: Instance, s: System)
    requires Typed(inst, s)
  {
    forall a {:trigger HoldsSlot(inst, s, a)} | a in s.agents :: HoldsSlot(inst, s, a)
  }

  /** Nobody has heard of a bid on `t`. */
  ghost predicate Free(inst: Instance, s: System, t: TaskId)
    requires Typed(inst, s)
  {
    t in inst.tasks && forall a | a in s.agents :: s.agents[a].table[t] == INITIAL_ENTRY
  }

  // ------------------------------------------------------------- free tasks

  /** Some agent in `ids` has the largest entry for `t` among them. */
  lemma {:induction false} TopAmong(inst: Instance, s: System, ids: set<AgentId>, t: TaskId) returns (top: AgentId)
    requires Typed(inst, s) && t in inst.tasks && {} < ids <= s.agents.Keys
    ensures top in ids && forall a | a in ids :: Leq(s.agents[a].table[t], s.agents[top].table[t])
    decreases |ids|
  {
    top := Pick(ids);
    if ids != {top} {
      var other := TopAmong(inst, s, ids - {top}, t);
      if Leq(s.agents[top].table[t], s.agents[other].table[t]) {
        top := other;
      }
    }
  }

  /** A task somebody has bid on has a holder. */
  lemma BidOnTaskIsHeld(inst: Instance, s: System, t: TaskId)
    requires Invariant(inst, s) && t in inst.tasks && !Free(inst, s, t)
    ensures exists holder :: Holds(inst, s, holder, t)
  {
    var a :| a in s.agents && s.agents[a].table[t] != INITIAL_ENTRY;
    var top := TopAmong(inst, s, s.agents.Keys, t);
    var e := s.agents[top].table[t];
    assert TableKnown(inst, s, s.agents[top].table) && Known(inst, s, t, e);
    assert TableKnown(inst, s, s.agents[a].table) && Known(inst, s, t, s.agents[a].table[t]);
    assert Leq(s.agents[a].table[t], e);
    assert s.agents[e.bidder].table[t] == e;
    assert Holds(inst, s, e.bidder, t);
  }

  lemma HolderIsUnique(inst: Instance, s: System, a: AgentId, b: AgentId, t: TaskId)
    requires Typed(inst, s) && Holds(inst, s, a, t) && Holds(inst, s, b, t)
    ensures a == b
  {
  }

  /** An agent holds at most one task, and one that holds a task is not outbid. */
  lemma HolderIsNotOutbid(inst: Instance, s: System, a: AgentId, t: TaskId)
    requires Invariant(inst, s) && Holds(inst, s, a, t)
    ensures s.agents[a].assignment == Some(t) && !Outbid(a, s.agents[a])
  {
    assert AgentInvariant(inst, a, s.agents[a]);
  }

  ghost function HolderOf(inst: Instance, s: System, t: TaskId): (a: AgentId)
    requires Invariant(inst, s) && t in inst.tasks && !Free(inst, s, t)
    ensures Holds(inst, s, a, t)
  {
    BidOnTaskIsHeld(inst, s, t);
    var a :| Holds(inst, s, a, t);
    a
  }

  ghost function FreeTasks(inst: Instance, s: System): set<TaskId>
    requires Typed(inst, s)
  {
    set t | t in inst.tasks && Free(inst, s, t)
  }

  ghost function Holders(inst: Instance, s: System): set<AgentId>
    requires Typed(inst, s)
  {
    set a | a in s.agents && HoldsSlot(inst, s, a)
  }

  /** Who holds each task that has been bid on. */
  ghost function HolderMap(inst: Instance, s: System): map<TaskId, AgentId>
    requires Invariant(inst, s)
  {
    map t | t in inst.tasks && !Free(inst, s, t) :: HolderOf(inst, s, t)
  }

  lemma HoldersAreDistinct(inst: Instance, s: System)
    requires Invariant(inst, s)
    ensures Injective(HolderMap(inst, s))
  {
    var holder := HolderMap(inst, s);
    forall t, u | t in holder && u in holder && t != u ensures holder[t] != holder[u] {
      HolderIsNotOutbid(inst, s, holder[t], t);
      HolderIsNotOutbid(inst, s, holder[u], u);
    }
  }

  lemma HolderMapValues(inst: Instance, s: System)
    requires Invariant(inst, s)
    ensures HolderMap(inst, s).Values == Holders(inst, s)
  {
    var holder := HolderMap(inst, s);
    forall a | a in Holders(inst, s) ensures a in holder.Values {
      var t :| Holds(inst, s, a, t);
      assert !Free(inst, s, t) && t in holder;
      HolderIsUnique(inst, s, a, holder[t], t);
    }
    forall a | a in holder.Values ensures a in Holders(inst, s) {
      var t :| t in holder && holder[t] == a;
      assert Holds(inst, s, a, t);
    }
  }

  lemma TasksAreFreeOrHeld(inst: Instance, s: System)
    requires Invariant(inst, s)
    ensures inst.tasks == FreeTasks(inst, s) + HolderMap(inst, s).Keys
    ensures FreeTasks(inst, s) !! HolderMap(inst, s).Keys
  {
  }

  /** In every reachable state the free tasks and the holders together number as many as the tasks. */
  lemma FreeTasksAndHoldersCount(inst: Instance, s: System)
    requires Invariant(inst, s)
    ensures |FreeTasks(inst, s)| + |Holders(inst, s)| == |inst.tasks|
  {
    HoldersAreDistinct(inst, s);
    InjectiveCardinality(HolderMap(inst, s));
    HolderMapValues(inst, s);
    TasksAreFreeOrHeld(inst, s);
    Partition(inst.tasks, FreeTasks(inst, s), HolderMap(inst, s).Keys);
  }

  /** While some agent holds nothing, at least m - n + 1 tasks are free. */
  lemma FreeTasksRemain(inst: Instance, s: System, a: AgentId)
    requires Invariant(inst, s) && a in s.agents && !HoldsSlot(inst, s, a)
    ensures |FreeTasks(inst, s)| >= |inst.tasks| - |inst.rows| + 1
    ensures |FreeTasks(inst, s)| == |inst.tasks| - |inst.rows| + 1 ==> Holders(inst, s) == s.agents.Keys - {a}
  {
    FreeTasksAndHoldersCount(inst, s);
    var others := s.agents.Keys - {a};
    assert |s.agents.Keys| == |inst.rows.Keys|;
    assert |others| == |inst.rows| - 1;
    assert a !in Holders(inst, s);
    SubsetCardinality(Holders(inst, s), others);
  }

  // ------------------------------------------------------------ price ceiling

  ghost predicate PricesAtMost(s: System, ceiling: real) {
    forall a, t | a in s.agents && t in s.agents[a].table :: s.agents[a].table[t].price <= ceiling
  }

  /** Prices stay below spread + epsilon until, with as many tasks as agents, the very last bid. */
  ghost predicate Ceiling(inst: Instance, s: System, spread: real)
    requires Typed(inst, s)
  {
    var low := spread + inst.config.epsilon;
    || PricesAtMost(s, low)
    || (|inst.tasks| == |inst.rows| && AllHold(inst, s) && PricesAtMost(s, low + low))
  }

  /** Any known entry is at most the holder's. */
  lemma KnownBelowHolder(inst: Instance, s: System, a: AgentId, t: TaskId, e: PriceEntry)
    requires Invariant(inst, s) && t in inst.tasks && Holds(inst, s, a, t) && Known(inst, s, t, e)
    ensures Leq(e, s.agents[a].table[t])
  {
    assert TableKnown(inst, s, s.agents[a].table) && Known(inst, s, t, s.agents[a].table[t]);
  }

  /** A holder stays one when only `d`'s table changes, and not above the holder's entry. */
  lemma ChangeKeepsHolder(inst: Instance, s: System, s': System, d: AgentId, a: AgentId, t: TaskId)
    requires Typed(inst, s) && Typed(inst, s') && Holds(inst, s, a, t) && d in s.agents
    requires forall b | b in s.agents && b != d :: s'.agents[b].table == s.agents[b].table
    requires Leq(s'.agents[d].table[t], s.agents[a].table[t])
    requires d == a ==> s'.agents[d].table[t] == s.agents[d].table[t]
    ensures Holds(inst, s', a, t)
  {
    forall b | b in s'.agents ensures Leq(s'.agents[b].table[t], s'.agents[a].table[t]) {
    }
  }

  /** A message in flight says nothing beyond the holder's entry. */
  lemma MessageBelowHolder(inst: Instance, s: System, message: PriceTableMessage, a: AgentId, t: TaskId)
    requires Invariant(inst, s) && message in s.net && Holds(inst, s, a, t)
    ensures t in message.entries && Leq(message.entries[t], s.agents[a].table[t])
  {
    assert TableKnown(inst, s, message.entries);
    KnownBelowHolder(inst, s, a, t, message.entries[t]);
  }

  lemma HandledBelow(dest: AgentId, st: AgentState, message: PriceTableMessage, t: TaskId, e: PriceEntry)
    requires t in st.table && t in message.entries && Leq(message.entries[t], e) && Leq(st.table[t], e)
    ensures t in Handle(dest, st, message).table && Leq(Handle(dest, st, message).table[t], e)
    ensures st.table[t] == e ==> Handle(dest, st, message).table[t] == e
  {
  }

  lemma DeliveredBelowHolder(inst: Instance, s: System, dest: AgentId, message: PriceTableMessage, a: AgentId,
                             t: TaskId)
    requires Invariant(inst, s) && dest in s.agents && message in s.net && Holds(inst, s, a, t)
    ensures var table, entry := Handle(dest, s.agents[dest], message).table, s.agents[a].table[t];
            t in table && Leq(table[t], entry) && (dest == a ==> table[t] == entry)
  {
    MessageBelowHolder(inst, s, message, a, t);
    HolderIsTop(inst, s, a, t, dest);
    HandledBelow(dest, s.agents[dest], message, t, s.agents[a].table[t]);
  }

  /** Delivering a message disturbs no holder. */
  lemma DeliverKeepsHolders(inst: Instance, s: System, dest: AgentId, message: PriceTableMessage, a: AgentId, t: TaskId)
    requires Invariant(inst, s) && dest in s.agents && message in s.net && Holds(inst, s, a, t)
    ensures Typed(inst, ApplyDeliver(s, dest, message))
    ensures Holds(inst, ApplyDeliver(s, dest, message), a, t)
  {
    DeliverStepGrows(inst, s, dest, message);
    DeliveredBelowHolder(inst, s, dest, message, a, t);
    ChangeKeepsHolder(inst, s, ApplyDeliver(s, dest, message), dest, a, t);
  }

  lemma HolderIsTop(inst: Instance, s: System, a: AgentId, t: TaskId, b: AgentId)
    requires Typed(inst, s) && Holds(inst, s, a, t) && b in s.agents
    ensures t in s.agents[b].table && Leq(s.agents[b].table[t], s.agents[a].table[t])
  {
  }

  lemma DeliverKeepsCeiling(inst: Instance, s: System, dest: AgentId, message: PriceTableMessage, ceiling: real)
    requires Invariant(inst, s) && dest in s.agents && message in s.net
    requires PricesAtMost(s, ceiling) && ceiling >= 0.0
    ensures PricesAtMost(ApplyDeliver(s, dest, message), ceiling)
  {
    assert TableKnown(inst, s, message.entries);
    forall t | t in inst.tasks ensures message.entries[t].price <= ceiling {
      assert Known(inst, s, t, message.entries[t]);
    }
  }

  /** A tick without a bid leaves all tables alone, so it disturbs neither holders nor prices. */
  lemma QuietTickKeepsTables(inst: Instance, s: System, a: AgentId)
    requires Typed(inst, s) && a in s.agents && !Outbid(a, s.agents[a])
    requires Typed(inst, ApplyTick(inst, s, a))
    ensures forall b | b in s.agents :: ApplyTick(inst, s, a).agents[b].table == s.agents[b].table
    ensures forall b, t | Holds(inst, s, b, t) :: Holds(inst, ApplyTick(inst, s, a), b, t)
  {
  }

  lemma BidderHoldsNothing(inst: Instance, s: System, a: AgentId)
    requires Invariant(inst, s) && a in s.agents && Outbid(a, s.agents[a])
    ensures !HoldsSlot(inst, s, a)
  {
    forall t | Holds(inst, s, a, t) ensures false {
      HolderIsNotOutbid(inst, s, a, t);
    }
  }

  /** The price an agent bids, compared with any other task in its table. */
  lemma BidPriceCap(id: AgentId, row: Row, config: RoundConfig, st: AgentState, u: TaskId)
    requires Fits(row, st) && u in st.table && u != BestTask(row, st.table)
    ensures var best := BestTask(row, st.table);
            PlaceBid(id, row, config, st).table[best].price
              <= row.benefit(best) - row.benefit(u) + st.table[u].price + config.epsilon
  {
    BidLeavesSlack(id, row, config, st);
  }

  /** A bid on the only task there is costs epsilon. */
  lemma SingleTaskBid(id: AgentId, row: Row, config: RoundConfig, st: AgentState)
    requires Fits(row, st) && |row.order| == 1
    ensures var best := BestTask(row, st.table);
            PlaceBid(id, row, config, st).table[best].price == st.table[best].price + config.epsilon
  {
    BidLeavesSlack(id, row, config, st);
  }

  lemma BidChangesOnlyBest(inst: Instance, s: System, a: AgentId)
    requires Typed(inst, s) && a in s.agents && Outbid(a, s.agents[a])
    ensures var best := BestTask(inst.rows[a], s.agents[a].table);
            var s' := ApplyTick(inst, s, a);
            && best in inst.tasks
            && s'.agents[a].table == PlaceBid(a, inst.rows[a], inst.config, s.agents[a]).table
            && s'.agents[a].table[best].bidder == a
            && (forall t | t in inst.tasks && t != best :: s'.agents[a].table[t] == s.agents[a].table[t])
            && (forall b | b in s.agents && b != a :: s'.agents[b].table == s.agents[b].table)
  {
    BidLeavesSlack(a, inst.rows[a], inst.config, s.agents[a]);
  }

  /** With a free task beside the chosen one, the new price is within the low ceiling. */
  lemma BidBesideFreeTask(inst: Instance, s: System, a: AgentId, u: TaskId, spread: real)
    requires Invariant(inst, s) && Spread(inst, spread)
    requires a in s.agents && Outbid(a, s.agents[a])
    requires Free(inst, s, u) && u != BestTask(inst.rows[a], s.agents[a].table)
    ensures var best := BestTask(inst.rows[a], s.agents[a].table);
            ApplyTick(inst, s, a).agents[a].table[best].price <= spread + inst.config.epsilon
  {
    BidChangesOnlyBest(inst, s, a);
    BidPriceCap(a, inst.rows[a], inst.config, s.agents[a], u);
  }

  /** The very last bid: its task was the only free one. */
  lemma BidOnLastFreeTask(inst: Instance, s: System, a: AgentId, spread: real)
    requires Invariant(inst, s) && Spread(inst, spread) && spread >= 0.0
    requires a in s.agents && Outbid(a, s.agents[a])
    requires PricesAtMost(s, spread + inst.config.epsilon)
    requires Free(inst, s, BestTask(inst.rows[a], s.agents[a].table))
    ensures var best := BestTask(inst.rows[a], s.agents[a].table);
            var low := spread + inst.config.epsilon;
            ApplyTick(inst, s, a).agents[a].table[best].price <= low + low
  {
    BidChangesOnlyBest(inst, s, a);
    BidIsCapped(a, inst.rows[a], inst.config, s.agents[a], spread);
  }

  lemma BidIsCapped(id: AgentId, row: Row, config: RoundConfig, st: AgentState, spread: real)
    requires Fits(row, st) && spread >= 0.0
    requires forall t, u | t in row.order && u in row.order :: row.benefit(t) - row.benefit(u) <= spread
    requires forall t | t in st.table :: st.table[t].price <= spread + config.epsilon
    ensures var best := BestTask(row, st.table);
            PlaceBid(id, row, config, st).table[best].price
            <= (spread + config.epsilon) + (spread + config.epsilon)
  {
    var best := BestTask(row, st.table);
    if |row.order| == 1 {
      SingleTaskBid(id, row, config, st);
    } else {
      var u := if row.order[0] == best then row.order[1] else row.order[0];
      assert u in row.order;
      BidPriceCap(id, row, config, st, u);
    }
  }

  /** A bid on a free task makes the bidder its holder and disturbs no other holder. */
  lemma BidOnFreeTaskHolds(inst: Instance, s: System, a: AgentId)
    requires Invariant(inst, s) && a in s.agents && Outbid(a, s.agents[a])
    requires Free(inst, s, BestTask(inst.rows[a], s.agents[a].table))
    ensures Typed(inst, ApplyTick(inst, s, a))
    ensures forall b | b == a || b in Holders(inst, s) :: HoldsSlot(inst, ApplyTick(inst, s, a), b)
  {
    var s' := ApplyTick(inst, s, a);
    var best := BestTask(inst.rows[a], s.agents[a].table);
    TickStepGrows(inst, s, a);
    BidChangesOnlyBest(inst, s, a);
    TickKeepsKnown(inst, s, a);
    assert TableKnown(inst, s', s'.agents[a].table) && Known(inst, s', best, s'.agents[a].table[best]);
    assert Holds(inst, s', a, best);
    forall b | b in Holders(inst, s) ensures HoldsSlot(inst, s', b) {
      var t :| Holds(inst, s, b, t);
      assert t != best;
      ChangeKeepsHolder(inst, s, s', a, b, t);
    }
  }

  /** If no task but `best` is free, then `best` is, m equals n, and everybody else holds a task. */
  lemma LastFreeTask(inst: Instance, s: System, a: AgentId, best: TaskId)
    requires Invariant(inst, s) && a in s.agents && !HoldsSlot(inst, s, a) && |inst.rows| <= |inst.tasks|
    requires forall u | Free(inst, s, u) :: u == best
    ensures Free(inst, s, best) && |inst.tasks| == |inst.rows|
    ensures Holders(inst, s) == s.agents.Keys - {a}
  {
    FreeTasksRemain(inst, s, a);
    var free := FreeTasks(inst, s);
    SubsetCardinality(free, {best});
  }

  lemma BidKeepsPrices(inst: Instance, s: System, a: AgentId, ceiling: real)
    requires Typed(inst, s) && a in s.agents && Outbid(a, s.agents[a]) && PricesAtMost(s, ceiling)
    requires var best := BestTask(inst.rows[a], s.agents[a].table);
             ApplyTick(inst, s, a).agents[a].table[best].price <= ceiling
    ensures PricesAtMost(ApplyTick(inst, s, a), ceiling)
  {
    BidChangesOnlyBest(inst, s, a);
    TickStepGrows(inst, s, a);
    var s' := ApplyTick(inst, s, a);
    forall b, t | b in s'.agents && t in s'.agents[b].table ensures s'.agents[b].table[t].price <= ceiling {
      assert s.agents[b].table[t].price <= ceiling;
    }
  }

  lemma LastBidFillsAllSlots(inst: Instance, s: System, a: AgentId)
    requires Invariant(inst, s) && a in s.agents && Outbid(a, s.agents[a])
    requires Free(inst, s, BestTask(inst.rows[a], s.agents[a].table))
    requires Holders(inst, s) == s.agents.Keys - {a}
    ensures Typed(inst, ApplyTick(inst, s, a)) && AllHold(inst, ApplyTick(inst, s, a))
  {
    BidOnFreeTaskHolds(inst, s, a);
  }

  lemma LastBidKeepsPrices(inst: Instance, s: System, a: AgentId, spread: real)
    requires Invariant(inst, s) && Spread(inst, spread) && spread >= 0.0 && |inst.rows| <= |inst.tasks|
    requires a in s.agents && Outbid(a, s.agents[a])
    requires PricesAtMost(s, spread + inst.config.epsilon)
    requires Free(inst, s, BestTask(inst.rows[a], s.agents[a].table))
    ensures var low := spread + inst.config.epsilon;
            PricesAtMost(ApplyTick(inst, s, a), low + low)
  {
    var low := spread + inst.config.epsilon;
    BidOnLastFreeTask(inst, s, a, spread);
    assert PricesAtMost(s, low + low) by {
      forall b, t | b in s.agents && t in s.agents[b].table ensures s.agents[b].table[t].price <= low + low {
        assert s.agents[b].table[t].price <= low;
      }
    }
    BidKeepsPrices(inst, s, a, low + low);
  }

  lemma BidKeepsCeiling(inst: Instance, s: System, a: AgentId, spread: real)
    requires Invariant(inst, s) && Spread(inst, spread) && spread >= 0.0 && |inst.rows| <= |inst.tasks|
    requires a in s.agents && Outbid(a, s.agents[a]) && Ceiling(inst, s, spread)
    ensures Typed(inst, ApplyTick(inst, s, a)) && Ceiling(inst, ApplyTick(inst, s, a), spread)
  {
    BidderHoldsNothing(inst, s, a);
    if u :| Free(inst, s, u) && u != BestTask(inst.rows[a], s.agents[a].table) {
      TickStepGrows(inst, s, a);
      BidBesideFreeTask(inst, s, a, u, spread);
      BidKeepsPrices(inst, s, a, spread + inst.config.epsilon);
    } else {
      LastFreeTask(inst, s, a, BestTask(inst.rows[a], s.agents[a].table));
      LastBidFillsAllSlots(inst, s, a);
      LastBidKeepsPrices(inst, s, a, spread);
    }
  }

  lemma QuietTickKeepsCeiling(inst: Instance, s: System, a: AgentId, spread: real)
    requires Typed(inst, s) && a in s.agents && !Outbid(a, s.agents[a]) && Ceiling(inst, s, spread)
    ensures Typed(inst, ApplyTick(inst, s, a)) && Ceiling(inst, ApplyTick(inst, s, a), spread)
  {
    var s' := ApplyTick(inst, s, a);
    TickStepGrows(inst, s, a);
    QuietTickKeepsTables(inst, s, a);
    forall ceiling | PricesAtMost(s, ceiling) ensures PricesAtMost(s', ceiling) {
      forall b, t | b in s'.agents && t in s'.agents[b].table ensures s'.agents[b].table[t].price <= ceiling {
        assert s.agents[b].table[t].price <= ceiling;
      }
    }
    if AllHold(inst, s) {
      forall b | b in s'.agents ensures HoldsSlot(inst, s', b) {
        assert HoldsSlot(inst, s, b);
        var t :| Holds(inst, s, b, t);
        assert Holds(inst, s', b, t);
      }
    }
  }

  lemma DeliverKeepsSlot(inst: Instance, s: System, dest: AgentId, message: PriceTableMessage, b: AgentId)
    requires Invariant(inst, s) && dest in s.agents && message in s.net && b in s.agents && HoldsSlot(inst, s, b)
    ensures Typed(inst, ApplyDeliver(s, dest, message)) && HoldsSlot(inst, ApplyDeliver(s, dest, message), b)
  {
    DeliverStepGrows(inst, s, dest, message);
    var t :| Holds(inst, s, b, t);
    DeliverKeepsHolders(inst, s, dest, message, b, t);
  }

  lemma DeliverKeepsAllHold(inst: Instance, s: System, dest: AgentId, message: PriceTableMessage)
    requires Invariant(inst, s) && dest in s.agents && message in s.net && AllHold(inst, s)
    ensures Typed(inst, ApplyDeliver(s, dest, message)) && AllHold(inst, ApplyDeliver(s, dest, message))
  {
    DeliverStepGrows(inst, s, dest, message);
    forall b | b in s.agents ensures HoldsSlot(inst, ApplyDeliver(s, dest, message), b) {
      assert HoldsSlot(inst, s, b);
      DeliverKeepsSlot(inst, s, dest, message, b);
    }
  }

  lemma DeliverStepKeepsCeiling(inst: Instance, s: System, dest: AgentId, message: PriceTableMessage, spread: real)
    requires Invariant(inst, s) && dest in s.agents && message in s.net && spread >= 0.0 && Ceiling(inst, s, spread)
    ensures Typed(inst, ApplyDeliver(s, dest, message)) && Ceiling(inst, ApplyDeliver(s, dest, message), spread)
  {
    var low := spread + inst.config.epsilon;
    if PricesAtMost(s, low) {
      DeliverKeepsCeiling(inst, s, dest, message, low);
    } else {
      DeliverKeepsCeiling(inst, s, dest, message, low + low);
      DeliverKeepsAllHold(inst, s, dest, message);
    }
  }

  lemma TickStepKeepsCeiling(inst: Instance, s: System, a: AgentId, spread: real)
    requires Invariant(inst, s) && a in s.agents && Spread(inst, spread) && spread >= 0.0
    requires |inst.rows| <= |inst.tasks| && Ceiling(inst, s, spread)
    ensures Typed(inst, ApplyTick(inst, s, a)) && Ceiling(inst, ApplyTick(inst, s, a), spread)
  {
    if Outbid(a, s.agents[a]) {
      BidKeepsCeiling(inst, s, a, spread);
    } else {
      QuietTickKeepsCeiling(inst, s, a, spread);
    }
  }

  lemma DropStepKeepsCeiling(inst: Instance, s: System, message: PriceTableMessage, spread: real)
    requires Invariant(inst, s) && Ceiling(inst, s, spread)
    ensures Typed(inst, s.(net := s.net - {message})) && Ceiling(inst, s.(net := s.net - {message}), spread)
  {
    var s' := s.(net := s.net - {message});
    forall b | b in s.agents && HoldsSlot(inst, s, b) ensures HoldsSlot(inst, s', b) {
      var t :| Holds(inst, s, b, t);
      assert Holds(inst, s', b, t);
    }
  }

  lemma StepKeepsCeiling(inst: Instance, s: System, step: Step, spread: real)
    requires Invariant(inst, s) && Enabled(s, step) && Spread(inst, spread) && spread >= 0.0
    requires |inst.rows| <= |inst.tasks| && Ceiling(inst, s, spread)
    ensures Typed(inst, Apply(inst, s, step)) && Ceiling(inst, Apply(inst, s, step), spread)
  {
    match step
    case Tick(a) => TickStepKeepsCeiling(inst, s, a, spread);
    case Deliver(dest, message) => DeliverStepKeepsCeiling(inst, s, dest, message, spread);
    case Drop(message) => DropStepKeepsCeiling(inst, s, message, spread);
  }

  /** The price ceiling, after every run of a round with at least as many tasks as agents. */
  lemma {:induction false} EveryRunKeepsCeiling(inst: Instance, run: seq<Step>, spread: real)
    requires inst.Valid() && IsRun(inst, run) && |inst.rows| <= |inst.tasks|
    requires Spread(inst, spread) && spread >= 0.0
    ensures Ceiling(inst, Execute(inst, run), spread)
  {
    if run != [] {
      var before, last := run[..|run| - 1], run[|run| - 1];
      EveryRunKeepsCeiling(inst, before, spread);
      EveryRunKeepsInvariant(inst, before);
      StepKeepsCeiling(inst, Execute(inst, before), last, spread);
    }
  }

  // ---------------------------------------------------------------- bid count

  function PriceMap(table: Table): map<TaskId, real> {
    map t | t in table :: table[t].price
  }

  lemma GrowthRaisesTotal(table: Table, table': Table)
    requires Below(table, table')
    ensures Sum(PriceMap(table)) <= Sum(PriceMap(table'))
  {
    forall t | t in table ensures PriceMap(table)[t] <= PriceMap(table')[t] {
      assert Leq(table[t], table'[t]);
    }
    SumMonotone(PriceMap(table), PriceMap(table'));
  }

  /** Each bid adds at least epsilon to the bidder's own prices. */
  lemma BidRaisesTotal(id: AgentId, row: Row, config: RoundConfig, st: AgentState)
    requires Fits(row, st)
    ensures Sum(PriceMap(PlaceBid(id, row, config, st).table)) >= Sum(PriceMap(st.table)) + config.epsilon
  {
    BidLeavesSlack(id, row, config, st);
    var best := BestTask(row, st.table);
    var next := PlaceBid(id, row, config, st).table;
    SumUpdate(PriceMap(st.table), best, next[best].price);
    assert PriceMap(next) == PriceMap(st.table)[best := next[best].price];
  }

  lemma InitialTotal(inst: Instance, a: AgentId)
    requires a in inst.rows
    ensures Sum(PriceMap(Init(inst).agents[a].table)) == 0.0
  {
    var prices := PriceMap(Init(inst).agents[a].table);
    assert forall t | t in prices :: prices[t] == 0.0;
    SumOfZeros(prices);
  }

  lemma SumAtMost(prices: map<TaskId, real>, ceiling: real)
    requires forall t | t in prices :: prices[t] <= ceiling
    ensures Sum(prices) <= Times(|prices.Keys|, ceiling)
  {
    var ceilings := map t | t in prices :: ceiling;
    SumMonotone(prices, ceilings);
    SumConstant(ceilings, ceiling);
    assert ceilings.Keys == prices.Keys;
  }

  lemma {:induction false} TimesGrows(j: nat, k: nat, x: real)
    requires j <= k && x >= 0.0
    ensures Times(j, x) <= Times(k, x)
  {
    if j < k {
      TimesGrows(j, k - 1, x);
    }
  }

  /** A table in which only `few` tasks have a price. */
  lemma PricedTasksTotal(table: Table, priced: set<TaskId>, few: nat, ceiling: real)
    requires ceiling >= 0.0 && priced <= table.Keys && |priced| <= few
    requires forall t | t in table :: table[t].price <= ceiling && (t !in priced ==> table[t].price == 0.0)
    ensures Sum(PriceMap(table)) <= Times(few, ceiling)
  {
    var prices := PriceMap(table);
    SumSplit(prices, priced);
    SumOfZeros(prices - priced);
    assert Restrict(prices, priced).Keys == priced;
    SumAtMost(Restrict(prices, priced), ceiling);
    TimesGrows(|priced|, few, ceiling);
  }

  /** No more tasks have been bid on than there are agents: each has a holder of its own. */
  lemma FewTasksAreBidOn(inst: Instance, s: System)
    requires Invariant(inst, s)
    ensures |HolderMap(inst, s).Keys| <= |inst.rows|
  {
    HoldersAreDistinct(inst, s);
    InjectiveCardinality(HolderMap(inst, s));
    HolderMapValues(inst, s);
    SubsetCardinality(Holders(inst, s), inst.rows.Keys);
    assert |inst.rows| == |inst.rows.Keys|;
  }

  /** Both halves of the ceiling imply the common bound of twice spread + epsilon. */
  lemma CeilingIsAtMostTwice(inst: Instance, s: System, spread: real)
    requires Typed(inst, s) && Ceiling(inst, s, spread) && spread >= 0.0
    ensures var low := spread + inst.config.epsilon; PricesAtMost(s, low + low)
  {
  }

  ghost predicate IsBid(inst: Instance, s: System, step: Step, a: AgentId)
    requires Typed(inst, s)
  {
    a in s.agents && step == Tick(a) && Outbid(a, s.agents[a])
  }

  /** What the prices of a table add up to. */
  ghost function Worth(table: Table): real {
    Sum(PriceMap(table))
  }

  /** What an agent's own table adds up to. */
  ghost function OwnTotal(s: System, a: AgentId): real
    requires a in s.agents
  {
    Worth(s.agents[a].table)
  }

  /** n prices of twice spread + epsilon. */
  ghost function PriceLimit(inst: Instance, spread: real): real {
    Times(|inst.rows|, (spread + inst.config.epsilon) + (spread + inst.config.epsilon))
  }

  /** How often agent `a` bids during `run`. */
  ghost function Bids(inst: Instance, run: seq<Step>, a: AgentId): nat
    requires inst.Valid() && IsRun(inst, run)
  {
    if run == [] then 0
    else
      var before, last := run[..|run| - 1], run[|run| - 1];
      Bids(inst, before, a) + (if IsBid(inst, Execute(inst, before), last, a) then 1 else 0)
  }

  /** Own prices of an agent after one step, against whether the step was a bid of that agent. */
  lemma StepRaisesTotal(inst: Instance, s: System, step: Step, a: AgentId)
    requires Typed(inst, s) && Enabled(s, step) && a in s.agents
    ensures a in Apply(inst, s, step).agents
    ensures OwnTotal(Apply(inst, s, step), a)
            >= OwnTotal(s, a) + (if IsBid(inst, s, step, a) then inst.config.epsilon else 0.0)
  {
    StepGrows(inst, s, step);
    if IsBid(inst, s, step, a) {
      BidRaisesTotal(a, inst.rows[a], inst.config, s.agents[a]);
    } else {
      GrowthRaisesTotal(s.agents[a].table, Apply(inst, s, step).agents[a].table);
    }
  }

  lemma CountedStepRaisesTotal(inst: Instance, s: System, step: Step, a: AgentId, bids: nat, s': System, bids': nat)
    requires Typed(inst, s) && Enabled(s, step) && a in s.agents && a in s'.agents
    requires s' == Apply(inst, s, step) && bids' == bids + if IsBid(inst, s, step, a) then 1 else 0
    requires Times(bids, inst.config.epsilon) <= OwnTotal(s, a)
    ensures Times(bids', inst.config.epsilon) <= OwnTotal(s', a)
  {
    StepRaisesTotal(inst, s, step, a);
    CountRaisesTotal(bids, IsBid(inst, s, step, a), inst.config.epsilon, OwnTotal(s, a), OwnTotal(s', a));
  }

  /** One more bid of at least epsilon. */
  lemma CountRaisesTotal(bids: nat, bid: bool, epsilon: real, total: real, total': real)
    requires Times(bids, epsilon) <= total && total' >= total + if bid then epsilon else 0.0
    ensures Times(bids + if bid then 1 else 0, epsilon) <= total'
  {
  }

  /** What the last step of a run does to the state and to the number of bids. */
  lemma LastStep(inst: Instance, run: seq<Step>, a: AgentId)
    requires inst.Valid() && IsRun(inst, run) && run != []
    ensures var before, last := run[..|run| - 1], run[|run| - 1];
            && IsRun(inst, before) && Enabled(Execute(inst, before), last)
            && Execute(inst, run) == Apply(inst, Execute(inst, before), last)
            && Bids(inst, run, a)
               == Bids(inst, before, a) + if IsBid(inst, Execute(inst, before), last, a) then 1 else 0
  {
  }

  lemma {:induction false} BidsRaiseTotal(inst: Instance, run: seq<Step>, a: AgentId, s: System, bids: nat)
    requires inst.Valid() && IsRun(inst, run) && a in inst.rows
    requires s == Execute(inst, run) && bids == Bids(inst, run, a)
    ensures Times(bids, inst.config.epsilon) <= OwnTotal(s, a)
  {
    if run == [] {
      InitialTotal(inst, a);
    } else {
      var before, last := run[..|run| - 1], run[|run| - 1];
      var s0, bids0 := Execute(inst, before), Bids(inst, before, a);
      BidsRaiseTotal(inst, before, a, s0, bids0);
      LastStep(inst, run, a);
      CountedStepRaisesTotal(inst, s0, last, a, bids0, s, bids);
    }
  }

  lemma PricesBoundTotal(inst: Instance, s: System, ceiling: real, a: AgentId)
    requires Invariant(inst, s) && a in s.agents && PricesAtMost(s, ceiling) && ceiling >= 0.0
    ensures OwnTotal(s, a) <= Times(|inst.rows|, ceiling)
  {
    var table, bidOn := s.agents[a].table, HolderMap(inst, s).Keys;
    FewTasksAreBidOn(inst, s);
    forall t | t in table && t !in bidOn ensures table[t].price == 0.0 {
      assert Free(inst, s, t);
    }
    PricedTasksTotal(table, bidOn, |inst.rows|, ceiling);
  }

  lemma StateBoundsTotal(inst: Instance, s: System, spread: real, a: AgentId)
    requires Invariant(inst, s) && Ceiling(inst, s, spread) && spread >= 0.0 && a in s.agents
    ensures OwnTotal(s, a) <= PriceLimit(inst, spread)
  {
    CeilingIsAtMostTwice(inst, s, spread);
    PricesBoundTotal(inst, s, (spread + inst.config.epsilon) + (spread + inst.config.epsilon), a);
  }

  lemma RunBoundsTotal(inst: Instance, run: seq<Step>, s: System, spread: real, a: AgentId)
    requires inst.Valid() && IsRun(inst, run) && |inst.rows| <= |inst.tasks| && s == Execute(inst, run)
    requires Spread(inst, spread) && spread >= 0.0 && a in inst.rows
    ensures a in s.agents && OwnTotal(s, a) <= PriceLimit(inst, spread)
  {
    EveryRunKeepsCeiling(inst, run, spread);
    EveryRunKeepsInvariant(inst, run);
    StateBoundsTotal(inst, s, spread, a);
  }

  /**
   No agent bids more than 2 n (C + epsilon) / epsilon times in any run, with
   C the spread of the benefits and however many tasks there are.
   */
  lemma BidsAreBounded(inst: Instance, run: seq<Step>, a: AgentId, spread: real)
    requires inst.Valid() && IsRun(inst, run) && |inst.rows| <= |inst.tasks|
    requires Spread(inst, spread) && spread >= 0.0 && a in inst.rows
    ensures Times(Bids(inst, run, a), inst.config.epsilon) <= PriceLimit(inst, spread)
  {
    var s := Execute(inst, run);
    BidsRaiseTotal(inst, run, a, s, Bids(inst, run, a));
    RunBoundsTotal(inst, run, s, spread, a);
  }
}
