/**
 One auction agent: outbid test, best/second-best scan, bid, quiescence count.
 The functions specify the methods of `AuctionAgent`.
 */
module Engine {
  import opened Types
  import opened Prices

  /** The mutable fields of an agent; its row and configuration never change. */
  datatype AgentState = AgentState(table: Table, assignment: Option<TaskId>, quiescentTicks: int, dirty: bool)

  /** The table covers exactly the tasks of the row, and so does the assignment. */
  ghost predicate Fits(row: Row, st: AgentState) {
    && Over(row, st.table.Keys)
    && (st.assignment.Some? ==> st.assignment.value in st.table)
  }

  function InitialState(tasks: set<TaskId>): AgentState {
    AgentState(InitialTable(tasks), None, 0, true)
  }

  function Net(row: Row, table: Table, t: TaskId): real
    requires t in table
  {
    row.benefit(t) - table[t].price
  }

  predicate Outbid(id: AgentId, st: AgentState)
    requires st.assignment.Some? ==> st.assignment.value in st.table
  {
    st.assignment.None? || st.table[st.assignment.value].bidder != id
  }

  predicate Terminated(config: RoundConfig, st: AgentState) {
    st.quiescentTicks >= config.quiescenceRounds
  }

  /** What the scan has found so far: the position of the best task, and the second-best net value. */
  datatype Scan = Scan(best: nat, second: Option<real>)

  /** Net value of the k-th task of the row. */
  function NetAt(row: Row, table: Table, k: nat): real
    requires k < |row.order| && row.order[k] in table
  {
    Net(row, table, row.order[k])
  }

  /** Best task (first seen on ties) and second-best net value among the first `k` tasks. */
  function ScanPrefix(row: Row, table: Table, k: nat): (s: Scan)
    requires 0 < k <= |row.order| && forall j | 0 <= j < k :: row.order[j] in table
    ensures s.best < k && (s.second.None? <==> k == 1)
  {
    if k == 1 then Scan(0, None) else
    var s := ScanPrefix(row, table, k - 1);
    var v, net := NetAt(row, table, s.best), NetAt(row, table, k - 1);
    if net > v then Scan(k - 1, Some(v))
    else if s.second.None? || net > s.second.value then Scan(s.best, Some(net))
    else s
  }

  /** The scan finds the first task of maximal net value, and the maximum over the others. */
  lemma {:induction false} ScanIsRight(row: Row, table: Table, k: nat)
    requires 0 < k <= |row.order| && forall j | 0 <= j < k :: row.order[j] in table
    ensures var s := ScanPrefix(row, table, k);
            forall j | 0 <= j < k :: NetAt(row, table, j) <= NetAt(row, table, s.best)
    ensures var s := ScanPrefix(row, table, k);
            forall j | 0 <= j < s.best :: NetAt(row, table, j) < NetAt(row, table, s.best)
    ensures var s := ScanPrefix(row, table, k);
            s.second.Some? ==> forall j | 0 <= j < k && j != s.best :: NetAt(row, table, j) <= s.second.value
    ensures var s := ScanPrefix(row, table, k);
            s.second.Some? ==> exists j | 0 <= j < k :: j != s.best && NetAt(row, table, j) == s.second.value
  {
    if k > 1 {
      ScanIsRight(row, table, k - 1);
    }
  }

  function BestTask(row: Row, table: Table): TaskId
    requires Over(row, table.Keys)
  {
    row.order[ScanPrefix(row, table, |row.order|).best]
  }

  /** The increment v - w + epsilon, or epsilon when there is no second task. */
  function Increment(row: Row, table: Table, epsilon: real): (gamma: real)
    requires Over(row, table.Keys)
    ensures gamma >= epsilon
  {
    var s := ScanPrefix(row, table, |row.order|);
    ScanIsRight(row, table, |row.order|);
    if s.second.None? then epsilon else NetAt(row, table, s.best) - s.second.value + epsilon
  }

  function PlaceBid(id: AgentId, row: Row, config: RoundConfig, st: AgentState): AgentState
    requires Fits(row, st)
  {
    var best := BestTask(row, st.table);
    var gamma := Increment(row, st.table, config.epsilon);
    st.(table := st.table[best := PriceEntry(st.table[best].price + gamma, id)], assignment := Some(best))
  }

  /** State after one iteration: bid if outbid, then advance or reset the quiet count. */
  function TickState(id: AgentId, row: Row, config: RoundConfig, st: AgentState): AgentState
    requires Fits(row, st)
  {
    var bids := Outbid(id, st);
    var next := if bids then PlaceBid(id, row, config, st) else st;
    next.(quiescentTicks := if bids || st.dirty then 0 else st.quiescentTicks + 1, dirty := false)
  }

  /** The broadcast of an agent whose tick ended in `st`. */
  function Broadcast(id: AgentId, config: RoundConfig, st: AgentState): Option<PriceTableMessage> {
    if Terminated(config, st) then None else Some(PriceTableMessage(id, st.table))
  }

  function Handle(id: AgentId, st: AgentState, message: PriceTableMessage): AgentState {
    if message.sender == id then st
    else
      var table := Join(st.table, message.entries);
      st.(table := table, dirty := st.dirty || table != st.table)
  }

  function HandleAll(id: AgentId, st: AgentState, messages: seq<PriceTableMessage>): AgentState {
    if messages == [] then st
    else Handle(id, HandleAll(id, st, messages[..|messages| - 1]), messages[|messages| - 1])
  }

  /** The tables an agent takes in: its own echoes are ignored. */
  function Foreign(id: AgentId, messages: seq<PriceTableMessage>): seq<Table> {
    if messages == [] then []
    else
      var rest := Foreign(id, messages[..|messages| - 1]);
      var last := messages[|messages| - 1];
      if last.sender == id then rest else rest + [last.entries]
  }

  /**
   After a bid the agent is the bidder of its task, whose price rose by at least
   epsilon; no other entry changed. Its net value there is within epsilon of every
   other: exactly epsilon below the best other one, if there is another.
   */
  lemma BidLeavesSlack(id: AgentId, row: Row, config: RoundConfig, st: AgentState)
    requires Fits(row, st)
    ensures var next := PlaceBid(id, row, config, st);
            && Fits(row, next) && next.assignment.Some?
            && var best := next.assignment.value;
            && next.table[best].bidder == id
            && next.table[best].price >= st.table[best].price + config.epsilon
            && Below(st.table, next.table)
            && (forall t | t in next.table && t != best ::
                  && next.table[t] == st.table[t]
                  && Net(row, next.table, best) >= Net(row, next.table, t) - config.epsilon)
            && (|row.order| == 1 ==> next.table[best].price == st.table[best].price + config.epsilon)
            && (|row.order| > 1 ==>
                  exists t | t in next.table ::
                    t != best && Net(row, next.table, best) == Net(row, next.table, t) - config.epsilon)
  {
    var n := |row.order|;
    var s := ScanPrefix(row, st.table, n);
    var next := PlaceBid(id, row, config, st);
    var best := BestTask(row, st.table);
    ScanIsRight(row, st.table, n);
    forall t | t in next.table && t != best
      ensures Net(row, next.table, best) >= Net(row, next.table, t) - config.epsilon
    {
      assert t in row.order;
      var j :| 0 <= j < n && row.order[j] == t;
      assert NetAt(row, st.table, j) == Net(row, next.table, t);
    }
    if n > 1 {
      var j :| 0 <= j < n && j != s.best && NetAt(row, st.table, j) == s.second.value;
      var t := row.order[j];
      assert t in next.table && t != best;
      assert Net(row, next.table, best) == Net(row, next.table, t) - config.epsilon;
    }
  }

  /** Delivering a batch joins all foreign tables at once; `dirty` records whether that changed anything. */
  lemma {:induction false} HandleAllJoins(id: AgentId, st: AgentState, messages: seq<PriceTableMessage>)
    ensures var table := JoinAll(st.table, Foreign(id, messages));
            HandleAll(id, st, messages) == st.(table := table, dirty := st.dirty || table != st.table)
  {
    if messages != [] {
      var init, last := messages[..|messages| - 1], messages[|messages| - 1];
      HandleAllJoins(id, st, init);
      var before := JoinAll(st.table, Foreign(id, init));
      if last.sender != id {
        var foreign := Foreign(id, messages);
        assert foreign[..|foreign| - 1] == Foreign(id, init);
        var after := Join(before, last.entries);
        assert JoinAll(st.table, foreign) == after;
        JoinAllIsLeastUpperBound(st.table, Foreign(id, init), before);
        JoinIsLeastUpperBound(before, last.entries, after);
        if after == st.table {
          BelowIsAntisymmetric(before, after);
        }
      }
    }
  }

  lemma {:induction false} ForeignMembers(id: AgentId, messages: seq<PriceTableMessage>, table: Table)
    ensures table in Foreign(id, messages) <==> exists m :: m in messages && m.sender != id && m.entries == table
  {
    if messages != [] {
      var init, last := messages[..|messages| - 1], messages[|messages| - 1];
      ForeignMembers(id, init, table);
      assert messages == init + [last];
      if m :| m in init && m.sender != id && m.entries == table {
        assert m in messages;
      }
    }
  }

  /**
   The promise of the message layer: whatever the order of delivery and however
   often each message is repeated, an agent ends in the same state.
   */
  lemma DeliveryOrderIsIrrelevant(id: AgentId, st: AgentState, xs: seq<PriceTableMessage>, ys: seq<PriceTableMessage>)
    requires forall m :: m in xs <==> m in ys
    ensures HandleAll(id, st, xs) == HandleAll(id, st, ys)
  {
    forall table: Table ensures table in Foreign(id, xs) <==> table in Foreign(id, ys) {
      ForeignMembers(id, xs, table);
      ForeignMembers(id, ys, table);
    }
    JoinOrderIsIrrelevant(st.table, Foreign(id, xs), Foreign(id, ys));
    HandleAllJoins(id, st, xs);
    HandleAllJoins(id, st, ys);
  }

  class AuctionAgent {
    const id: AgentId
    const row: Row
    const config: RoundConfig
    const prices: PriceTable
    var assignment: Option<TaskId>
    var quiescentTicks: int
    var dirty: bool

    ghost predicate Valid()
      reads this, prices
    {
      Fits(row, State())
    }

    function State(): AgentState
      reads this, prices
    {
      AgentState(prices.entries, assignment, quiescentTicks, dirty)
    }

    constructor (id: AgentId, row: Row, ghost tasks: set<TaskId>, config: RoundConfig)
      requires id >= 0 && Over(row, tasks)
      ensures Valid() && fresh(prices)
      ensures this.id == id && this.row == row && this.config == config
      ensures State() == InitialState(tasks)
    {
      this.id, this.row, this.config := id, row, config;
      assert tasks == set t | t in row.order;
      prices := new PriceTable(set t | t in row.order);
      assignment, quiescentTicks, dirty := None, 0, true;
    }

    method HandleMessage(message: PriceTableMessage)
      requires Valid()
      modifies this, prices
      ensures Valid()
      ensures State() == Handle(id, old(State()), message)
    {
      if message.sender == id {
        return;
      }
      var changed := prices.Merge(message.entries);
      if changed {
        dirty := true;
      }
    }

    method Tick() returns (out: seq<PriceTableMessage>)
      requires Valid()
      modifies this, prices
      ensures Valid()
      ensures State() == TickState(id, row, config, old(State()))
      ensures out == match Broadcast(id, config, State()) case None => [] case Some(m) => [m]
      ensures out == if quiescentTicks >= config.quiescenceRounds then [] else [PriceTableMessage(id, prices.entries)]
      ensures quiescentTicks == if old(Outbid(id, State()) || dirty) then 0 else old(quiescentTicks) + 1
      ensures !dirty && prices.entries.Keys == old(prices.entries.Keys)
    {
      var outbid := IsOutbid();
      if outbid {
        BidOnBest();
        dirty := true;
      }
      if dirty {
        quiescentTicks := 0;
        dirty := false;
      } else {
        quiescentTicks := quiescentTicks + 1;
      }
      if quiescentTicks >= config.quiescenceRounds {
        return [];
      }
      return [PriceTableMessage(id, prices.entries)];
    }

    method IsOutbid() returns (outbid: bool)
      requires Valid()
      ensures outbid <==> Outbid(id, State())
    {
      if assignment == None {
        return true;
      }
      return prices.entries[assignment.value].bidder != id;
    }

    /** One pass over the row keeps the best net value `v` and the second best `w`; None is minus infinity. */
    static method ScanRow(row: Row, entries: Table) returns (best: TaskId, v: real, w: Option<real>)
      requires Over(row, entries.Keys)
      ensures best == BestTask(row, entries)
      ensures v == Net(row, entries, best)
      ensures w == ScanPrefix(row, entries, |row.order|).second
    {
      best := row.order[0];
      v, w := row.benefit(best) - entries[best].price, None;
      for k := 1 to |row.order|
        invariant var s := ScanPrefix(row, entries, k);
                  best == row.order[s.best] && v == NetAt(row, entries, s.best) && w == s.second
      {
        var taskId := row.order[k];
        var net := row.benefit(taskId) - entries[taskId].price;
        if net > v {
          w := Some(v);
          v, best := net, taskId;
        } else if w == None || net > w.value {
          w := Some(net);
        }
      }
    }

    method BidOnBest()
      requires Valid()
      modifies this`assignment, prices
      ensures Valid()
      ensures State() == PlaceBid(id, row, config, old(State()))
    {
      var best, v, w := ScanRow(row, prices.entries);
      var gamma := if w == None then config.epsilon else v - w.value + config.epsilon;
      assert gamma == Increment(row, prices.entries, config.epsilon);
      prices.Bid(best, gamma, id, config.epsilon);
      assignment := Some(best);
    }
  }
}
