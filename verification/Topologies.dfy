/**
 The topologies experiments run on: complete graphs, lines, and random graphs
 seeded with a spanning path. All are symmetric and connected, as the agreement
 and propagation results require.
 */
module Topologies {
  import opened Types
  import opened Transport
  import opened Distances

  ghost predicate Symmetric(topology: Topology) {
    forall a, b {:trigger Edge(topology, a, b)} | Edge(topology, a, b) :: Edge(topology, b, a)
  }

  /** Consecutive ids are linked both ways. */
  ghost predicate ContainsPath(topology: Topology, order: seq<AgentId>) {
    forall k | 0 <= k < |order| - 1 :: Edge(topology, order[k], order[k + 1]) && Edge(topology, order[k + 1], order[k])
  }

  function Gap(i: nat, j: nat): nat {
    if i < j then j - i else i - j
  }

  lemma OneStep(topology: Topology, a: AgentId, n: nat, x: AgentId, y: AgentId)
    requires x in Ball(topology, a, n) && Edge(topology, x, y)
    ensures y in Ball(topology, a, n + 1)
  {
    assert y in Successors(topology, Ball(topology, a, n));
  }

  lemma {:induction false} PathReachesForward(topology: Topology, order: seq<AgentId>, i: nat, n: nat)
    requires ContainsPath(topology, order) && i + n < |order|
    ensures order[i + n] in Ball(topology, order[i], n)
    decreases n
  {
    if n > 0 {
      PathReachesForward(topology, order, i, n - 1);
      var k := i + n - 1;
      assert Edge(topology, order[k], order[k + 1]);
      OneStep(topology, order[i], n - 1, order[k], order[k + 1]);
    }
  }

  lemma {:induction false} PathReachesBack(topology: Topology, order: seq<AgentId>, i: nat, n: nat)
    requires ContainsPath(topology, order) && n <= i < |order|
    ensures order[i - n] in Ball(topology, order[i], n)
    decreases n
  {
    if n > 0 {
      PathReachesBack(topology, order, i, n - 1);
      var k := i - n;
      assert Edge(topology, order[k + 1], order[k]);
      OneStep(topology, order[i], n - 1, order[k + 1], order[k]);
    }
  }

  /** Along the path, ids are no further apart than their positions. */
  lemma PathReaches(topology: Topology, order: seq<AgentId>, i: nat, j: nat)
    requires ContainsPath(topology, order) && i < |order| && j < |order|
    ensures order[j] in Ball(topology, order[i], Gap(i, j))
  {
    if i < j {
      PathReachesForward(topology, order, i, j - i);
    } else {
      PathReachesBack(topology, order, i, i - j);
    }
  }

  /** A graph over the ids of a path that contains the path is connected. */
  lemma PathConnects(topology: Topology, order: seq<AgentId>)
    requires ContainsPath(topology, order) && Lists(order, topology.Keys)
    ensures StronglyConnected(topology)
  {
    forall a, b | a in topology && b in topology ensures Reachable(topology, a, b) {
      var i: nat :| i < |order| && order[i] == a;
      var j: nat :| j < |order| && order[j] == b;
      PathReaches(topology, order, i, j);
    }
  }

  // ------------------------------------------------------ building graphs

  function WithNeighbour(topology: Topology, a: AgentId, b: AgentId): Topology
    requires a in topology
  {
    if b in topology[a] then topology else topology[a := topology[a] + [b]]
  }

  /** `b` joins the neighbours of `a`; nothing else changes. */
  lemma WithNeighbourAddsEdge(topology: Topology, a: AgentId, b: AgentId, x: AgentId, y: AgentId)
    requires a in topology
    ensures Edge(WithNeighbour(topology, a, b), x, y) <==> Edge(topology, x, y) || (x == a && y == b)
  {
  }

  /** Link two ids both ways. */
  method Link(topology: Topology, a: AgentId, b: AgentId) returns (linked: Topology)
    requires a in topology && b in topology && Symmetric(topology) && Closed(topology)
    ensures linked.Keys == topology.Keys && Symmetric(linked) && Closed(linked)
    ensures forall x, y :: Edge(linked, x, y) <==> Edge(topology, x, y) || (x == a && y == b) || (x == b && y == a)
  {
    var half := WithNeighbour(topology, a, b);
    linked := WithNeighbour(half, b, a);
    forall x, y ensures Edge(linked, x, y) <==> Edge(topology, x, y) || (x == a && y == b) || (x == b && y == a) {
      WithNeighbourAddsEdge(topology, a, b, x, y);
      WithNeighbourAddsEdge(half, b, a, x, y);
    }
  }

  ghost predicate Consecutive(order: seq<AgentId>, x: AgentId, y: AgentId) {
    exists k :: 0 <= k < |order| - 1 && order[k] == x && order[k + 1] == y
  }

  lemma ConsecutiveNext(order: seq<AgentId>, i: nat, x: AgentId, y: AgentId)
    requires 0 < i < |order|
    ensures Consecutive(order[..i + 1], x, y) <==> Consecutive(order[..i], x, y) || (x == order[i - 1] && y == order[i])
  {
    var longer, shorter := order[..i + 1], order[..i];
    assert longer[i - 1] == order[i - 1] && longer[i] == order[i];
    if Consecutive(shorter, x, y) {
      var k :| 0 <= k < |shorter| - 1 && shorter[k] == x && shorter[k + 1] == y;
      assert longer[k] == x && longer[k + 1] == y;
    }
    if Consecutive(longer, x, y) {
      var k :| 0 <= k < |longer| - 1 && longer[k] == x && longer[k + 1] == y;
      assert k < i - 1 ==> shorter[k] == x && shorter[k + 1] == y;
    }
  }

  /** Exactly the consecutive ids of `order` are linked. */
  ghost predicate IsLine(topology: Topology, order: seq<AgentId>) {
    forall x, y {:trigger Edge(topology, x, y)} ::
      Edge(topology, x, y) <==> Consecutive(order, x, y) || Consecutive(order, y, x)
  }

  /** Link consecutive ids, starting without links. */
  method LinkInOrder(order: seq<AgentId>) returns (topology: Topology)
    ensures topology.Keys == Elements(order) && Symmetric(topology) && Closed(topology)
    ensures IsLine(topology, order)
  {
    topology := map a | a in order :: [];
    if order == [] {
      return;
    }
    for i := 1 to |order|
      invariant topology.Keys == Elements(order) && Symmetric(topology) && Closed(topology)
      invariant IsLine(topology, order[..i])
    {
      ghost var before := topology;
      topology := Link(topology, order[i - 1], order[i]);
      forall x, y
        ensures Edge(topology, x, y) <==> Consecutive(order[..i + 1], x, y) || Consecutive(order[..i + 1], y, x)
      {
        ConsecutiveNext(order, i, x, y);
        ConsecutiveNext(order, i, y, x);
        assert Edge(before, x, y) <==> Consecutive(order[..i], x, y) || Consecutive(order[..i], y, x);
      }
    }
    assert order[..|order|] == order;
  }

  lemma LineContainsPath(topology: Topology, order: seq<AgentId>)
    requires IsLine(topology, order)
    ensures ContainsPath(topology, order)
  {
    forall k | 0 <= k < |order| - 1
      ensures Edge(topology, order[k], order[k + 1]) && Edge(topology, order[k + 1], order[k])
    {
      assert Consecutive(order, order[k], order[k + 1]);
    }
  }

  /** In a line nothing is nearer than its position says. */
  lemma {:induction false} LineBall(topology: Topology, order: seq<AgentId>, i: nat, j: nat, n: nat)
    requires IsLine(topology, order) && NoDuplicates(order) && i < |order| && j < |order|
    requires order[j] in Ball(topology, order[i], n)
    ensures Gap(i, j) <= n
    decreases n
  {
    if n > 0 {
      var x := LastHop(topology, order[i], order[j], n);
      if x == order[j] {
        LineBall(topology, order, i, j, n - 1);
      } else {
        var k := LineNeighbour(topology, order, x, j);
        LineBall(topology, order, i, k, n - 1);
      }
    }
  }

  lemma LineNeighbour(topology: Topology, order: seq<AgentId>, x: AgentId, j: nat) returns (k: nat)
    requires IsLine(topology, order) && NoDuplicates(order) && j < |order| && Edge(topology, x, order[j])
    ensures k < |order| && order[k] == x && Gap(k, j) == 1
  {
    assert Consecutive(order, x, order[j]) || Consecutive(order, order[j], x);
    if Consecutive(order, x, order[j]) {
      k :| 0 <= k < |order| - 1 && order[k] == x && order[k + 1] == order[j];
    } else {
      var k' :| 0 <= k' < |order| - 1 && order[k'] == order[j] && order[k' + 1] == x;
      k := k' + 1;
    }
  }

  lemma PathReachesWithin(topology: Topology, order: seq<AgentId>, i: nat, j: nat)
    requires ContainsPath(topology, order) && i < |order| && j < |order|
    ensures order[j] in Ball(topology, order[i], |order| - 1)
  {
    PathReaches(topology, order, i, j);
    BallGrows(topology, order[i], Gap(i, j), |order| - 1);
  }

  lemma LineSpans(topology: Topology, order: seq<AgentId>, i: nat)
    requires IsLine(topology, order) && topology.Keys == Elements(order) && i < |order|
    ensures Spans(topology, order[i], |order| - 1)
  {
    LineContainsPath(topology, order);
    forall b | b in topology ensures b in Ball(topology, order[i], |order| - 1) {
      var j: nat :| j < |order| && order[j] == b;
      PathReachesWithin(topology, order, i, j);
    }
  }

  /** The worst case: a line of n ids has diameter n - 1. */
  lemma LineDiameter(topology: Topology, order: seq<AgentId>)
    requires IsLine(topology, order) && topology.Keys == Elements(order) && NoDuplicates(order)
    ensures IsDiameter(topology, if |order| > 2 then |order| - 1 else 1)
  {
    var d := if |order| > 2 then |order| - 1 else 1;
    forall a | a in topology ensures Spans(topology, a, d) {
      var i: nat :| i < |order| && order[i] == a;
      LineSpans(topology, order, i);
      SpansMore(topology, a, |order| - 1, d);
    }
    if d > 1 {
      if order[d] in Ball(topology, order[0], d - 1) {
        LineBall(topology, order, 0, d, d - 1);
      }
      assert order[0] in topology && order[d] in topology;
      assert !Spans(topology, order[0], d - 1);
    }
  }

  /** Agents connected in index order. */
  method Line(ids: seq<AgentId>) returns (topology: Topology)
    requires NoDuplicates(ids)
    ensures topology.Keys == Elements(ids) && Symmetric(topology) && Closed(topology) && StronglyConnected(topology)
    ensures IsDiameter(topology, if |ids| > 2 then |ids| - 1 else 1)
  {
    topology := LinkInOrder(ids);
    LineContainsPath(topology, ids);
    PathConnects(topology, ids);
    LineDiameter(topology, ids);
  }

  /** The ids without one of them. */
  function Others(ids: seq<AgentId>, a: AgentId): (others: seq<AgentId>)
    ensures forall b :: b in others <==> b in ids && b != a
  {
    if ids == [] then []
    else
      var rest, last := Others(ids[..|ids| - 1], a), ids[|ids| - 1];
      assert ids == ids[..|ids| - 1] + [last];
      if last == a then rest else rest + [last]
  }

  /** Every id is everyone else's neighbour: one hop reaches all. */
  function Complete(ids: seq<AgentId>): Topology {
    map a | a in ids :: Others(ids, a)
  }

  lemma CompleteDiameter(ids: seq<AgentId>)
    ensures Complete(ids).Keys == Elements(ids) && Symmetric(Complete(ids)) && Closed(Complete(ids))
    ensures StronglyConnected(Complete(ids)) && IsDiameter(Complete(ids), 1)
  {
    var topology := Complete(ids);
    forall a, b | a in topology && b in topology ensures b in Ball(topology, a, 1) {
      if a != b {
        assert a in Ball(topology, a, 0) && Edge(topology, a, b);
        OneStep(topology, a, 0, a, b);
      }
    }
    forall a | a in topology ensures Spans(topology, a, 1) {
    }
  }

  /** A spanning path in shuffled order, then every other pair whose coin says so. */
  method RandomConnected(ids: seq<AgentId>, shuffled: seq<AgentId>, coin: (AgentId, AgentId) -> bool)
    returns (topology: Topology)
    requires NoDuplicates(ids) && Elements(shuffled) == Elements(ids)
    ensures topology.Keys == Elements(ids) && Symmetric(topology) && Closed(topology) && StronglyConnected(topology)
    ensures forall x, y :: Edge(topology, x, y) <==>
              || Consecutive(shuffled, x, y) || Consecutive(shuffled, y, x)
              || exists m, n :: 0 <= m < n < |ids| && coin(ids[m], ids[n]) && IsPair(ids[m], ids[n], x, y)
  {
    topology := LinkInOrder(shuffled);
    NothingTossed(topology, ids, shuffled, coin);
    for i := 0 to |ids|
      invariant topology in Tossed(ids, shuffled, coin, i, i + 1)
    {
      for j := i + 1 to |ids|
        invariant topology in Tossed(ids, shuffled, coin, i, j)
      {
        topology := Toss(ids, shuffled, coin, topology, i, j);
      }
      RowTossed(topology, ids, shuffled, coin, i);
    }
    AllTossed(topology, ids, shuffled, coin);
  }

  ghost predicate IsPair(a: AgentId, b: AgentId, x: AgentId, y: AgentId) {
    (x == a && y == b) || (x == b && y == a)
  }

  /** The coin linked this pair, among those looked at before (i, j). */
  ghost predicate CoinLinks(ids: seq<AgentId>, coin: (AgentId, AgentId) -> bool, i: nat, j: nat, x: AgentId, y: AgentId)
  {
    exists m, n ::
      0 <= m < n < |ids| && (m < i || (m == i && n < j)) && coin(ids[m], ids[n]) && IsPair(ids[m], ids[n], x, y)
  }

  ghost predicate HasExactly(topology: Topology, ids: seq<AgentId>, shuffled: seq<AgentId>,
                             coin: (AgentId, AgentId) -> bool, i: nat, j: nat)
  {
    forall x, y :: Edge(topology, x, y) <==>
      Consecutive(shuffled, x, y) || Consecutive(shuffled, y, x) || CoinLinks(ids, coin, i, j, x, y)
  }

  /** The graphs with the spanning path and what the coins before (i, j) have linked. */
  ghost function Tossed(ids: seq<AgentId>, shuffled: seq<AgentId>, coin: (AgentId, AgentId) -> bool, i: nat, j: nat):
    iset<Topology>
  {
    iset topology: Topology |
      && topology.Keys == Elements(ids) && Symmetric(topology) && Closed(topology)
      && HasExactly(topology, ids, shuffled, coin, i, j)
  }

  lemma NothingTossed(topology: Topology, ids: seq<AgentId>, shuffled: seq<AgentId>, coin: (AgentId, AgentId) -> bool)
    requires topology.Keys == Elements(ids) && Symmetric(topology) && Closed(topology) && IsLine(topology, shuffled)
    ensures topology in Tossed(ids, shuffled, coin, 0, 1)
  {
  }

  lemma RowTossed(topology: Topology, ids: seq<AgentId>, shuffled: seq<AgentId>, coin: (AgentId, AgentId) -> bool,
                  i: nat)
    requires i < |ids| && topology in Tossed(ids, shuffled, coin, i, |ids|)
    ensures topology in Tossed(ids, shuffled, coin, i + 1, i + 2)
  {
    forall x, y ensures CoinLinks(ids, coin, i + 1, i + 2, x, y) <==> CoinLinks(ids, coin, i, |ids|, x, y) {
    }
  }

  lemma AllTossed(topology: Topology, ids: seq<AgentId>, shuffled: seq<AgentId>, coin: (AgentId, AgentId) -> bool)
    requires topology in Tossed(ids, shuffled, coin, |ids|, |ids| + 1) && Elements(shuffled) == Elements(ids)
    ensures topology.Keys == Elements(ids) && Symmetric(topology) && Closed(topology) && StronglyConnected(topology)
    ensures forall x, y :: Edge(topology, x, y) <==>
              || Consecutive(shuffled, x, y) || Consecutive(shuffled, y, x)
              || exists m, n :: 0 <= m < n < |ids| && coin(ids[m], ids[n]) && IsPair(ids[m], ids[n], x, y)
  {
    forall k | 0 <= k < |shuffled| - 1
      ensures Edge(topology, shuffled[k], shuffled[k + 1]) && Edge(topology, shuffled[k + 1], shuffled[k])
    {
      assert Consecutive(shuffled, shuffled[k], shuffled[k + 1]);
    }
    PathConnects(topology, shuffled);
  }

  /** One more coin. */
  lemma CoinNext(before: Topology, after: Topology, ids: seq<AgentId>, shuffled: seq<AgentId>,
                 coin: (AgentId, AgentId) -> bool, i: nat, j: nat)
    requires i < j < |ids| && HasExactly(before, ids, shuffled, coin, i, j)
    requires forall x, y :: Edge(after, x, y) <==>
               Edge(before, x, y) || (coin(ids[i], ids[j]) && IsPair(ids[i], ids[j], x, y))
    ensures HasExactly(after, ids, shuffled, coin, i, j + 1)
  {
    forall x, y ensures CoinLinks(ids, coin, i, j + 1, x, y)
      <==> CoinLinks(ids, coin, i, j, x, y) || (coin(ids[i], ids[j]) && IsPair(ids[i], ids[j], x, y))
    {
    }
  }

  /** Link the pair (i, j) if its coin says so and it is not linked yet. */
  method Toss(ids: seq<AgentId>, ghost shuffled: seq<AgentId>, coin: (AgentId, AgentId) -> bool, topology: Topology,
              i: nat, j: nat)
    returns (linked: Topology)
    requires i < j < |ids| && topology in Tossed(ids, shuffled, coin, i, j)
    ensures linked in Tossed(ids, shuffled, coin, i, j + 1)
  {
    var a, b := ids[i], ids[j];
    linked := topology;
    if b !in topology[a] && coin(a, b) {
      linked := Link(topology, a, b);
    }
    CoinNext(topology, linked, ids, shuffled, coin, i, j);
  }
}
