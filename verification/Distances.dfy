/**
 Hop distances in a topology: breadth-first search from every node, and the
 diameter from which the quiet window of a round is computed.
 */
module Distances {
  import opened Types
  import opened Transport
  import Sets

  ghost predicate Edge(topology: Topology, a: AgentId, b: AgentId) {
    a in topology && b in topology[a]
  }

  ghost function Successors(topology: Topology, nodes: set<AgentId>): set<AgentId> {
    set x, y | x in nodes && x in topology && y in topology[x] :: y
  }

  /** The agents at most `n` hops from `a`. */
  ghost function Ball(topology: Topology, a: AgentId, n: nat): set<AgentId> {
    if n == 0 then {a} else Ball(topology, a, n - 1) + Successors(topology, Ball(topology, a, n - 1))
  }

  ghost predicate Reachable(topology: Topology, a: AgentId, b: AgentId) {
    exists n: nat :: b in Ball(topology, a, n)
  }

  /** The agent before `b` on a path of at most `n` hops, or `b` itself. */
  lemma LastHop(topology: Topology, a: AgentId, b: AgentId, n: nat) returns (x: AgentId)
    requires n > 0 && b in Ball(topology, a, n)
    ensures x in Ball(topology, a, n - 1) && (x == b || Edge(topology, x, b))
  {
    if b in Ball(topology, a, n - 1) {
      x := b;
    } else {
      x :| x in Ball(topology, a, n - 1) && x in topology && b in topology[x];
    }
  }

  // ------------------------------------------------------ layers

  lemma {:induction false} BallGrows(topology: Topology, a: AgentId, m: nat, n: nat)
    requires m <= n
    ensures Ball(topology, a, m) <= Ball(topology, a, n)
    decreases n
  {
    if m < n {
      BallGrows(topology, a, m, n - 1);
    }
  }

  /** The agents exactly `n` hops from `a`. */
  ghost function Layer(topology: Topology, a: AgentId, n: nat): set<AgentId> {
    if n == 0 then {a} else Ball(topology, a, n) - Ball(topology, a, n - 1)
  }

  /** Only the outermost layer leads to new agents. */
  lemma OnlyTheLayerExpands(topology: Topology, a: AgentId, n: nat)
    ensures Ball(topology, a, n + 1) == Ball(topology, a, n) + Successors(topology, Layer(topology, a, n))
  {
    if n > 0 {
      var inner, layer := Ball(topology, a, n - 1), Layer(topology, a, n);
      assert Ball(topology, a, n) == inner + layer;
      assert Successors(topology, inner + layer) == Successors(topology, inner) + Successors(topology, layer);
    }
  }

  /** Once a layer is empty nothing further away can be reached. */
  lemma {:induction false} EmptyLayerEnds(topology: Topology, a: AgentId, n: nat, m: nat)
    requires Layer(topology, a, n) == {} && n <= m
    ensures Ball(topology, a, m) == Ball(topology, a, n)
    decreases m
  {
    if n < m {
      EmptyLayerEnds(topology, a, n, m - 1);
      OnlyTheLayerExpands(topology, a, n);
      assert Successors(topology, {}) == {};
    }
  }

  /** `n` is the least number of hops from `a` to `x`. */
  ghost predicate IsDistance(topology: Topology, a: AgentId, x: AgentId, n: nat) {
    x in Layer(topology, a, n)
  }

  // ------------------------------------------------------ breadth-first search

  ghost predicate Lists(s: seq<AgentId>, nodes: set<AgentId>) {
    forall x :: x in s <==> x in nodes
  }

  /** `dist'` keeps what `dist` has and puts everything new at distance `d`. */
  ghost predicate Grown(dist: map<AgentId, nat>, dist': map<AgentId, nat>, d: nat) {
    dist.Keys <= dist'.Keys && forall x | x in dist' :: dist'[x] == if x in dist then dist[x] else d
  }

  /** Record the neighbours of `node` that were not seen before. */
  method ExpandNode(topology: Topology, ghost start: map<AgentId, nat>, dist: map<AgentId, nat>, nxt: seq<AgentId>,
                    node: AgentId)
    returns (dist': map<AgentId, nat>, nxt': seq<AgentId>)
    requires node in topology && node in start && Grown(start, dist, start[node] + 1)
    requires Lists(nxt, dist.Keys - start.Keys)
    ensures Grown(start, dist', start[node] + 1)
    ensures Lists(nxt', dist'.Keys - start.Keys)
    ensures dist'.Keys == dist.Keys + Elements(topology[node])
  {
    dist', nxt' := dist, nxt;
    var neighbours := topology[node];
    for j := 0 to |neighbours|
      invariant Grown(start, dist', start[node] + 1)
      invariant Lists(nxt', dist'.Keys - start.Keys)
      invariant dist'.Keys == dist.Keys + Elements(neighbours[..j])
    {
      var neigh := neighbours[j];
      assert neighbours[..j + 1] == neighbours[..j] + [neigh];
      if neigh !in dist' {
        dist' := dist'[neigh := dist'[node] + 1];
        nxt' := nxt' + [neigh];
      }
    }
    assert neighbours[..|neighbours|] == neighbours;
  }

  lemma SuccessorsNext(topology: Topology, frontier: seq<AgentId>, i: nat)
    requires i < |frontier| && frontier[i] in topology
    ensures Successors(topology, Elements(frontier[..i + 1]))
            == Successors(topology, Elements(frontier[..i])) + Elements(topology[frontier[i]])
  {
    assert frontier[..i + 1] == frontier[..i] + [frontier[i]];
  }

  /** Expand every node of a layer; a node that is no key of the topology stops the search. */
  method ExpandLayer(topology: Topology, start: map<AgentId, nat>, frontier: seq<AgentId>, ghost n: nat)
    returns (missing: Option<AgentId>, dist: map<AgentId, nat>, nxt: seq<AgentId>)
    requires forall x | x in frontier :: x in start && start[x] == n
    ensures missing.Some? ==> missing.value in frontier && missing.value !in topology
    ensures missing.None? ==>
              && (forall x | x in frontier :: x in topology)
              && Grown(start, dist, n + 1) && Lists(nxt, dist.Keys - start.Keys)
              && dist.Keys == start.Keys + Successors(topology, Elements(frontier))
  {
    missing, dist, nxt := None, start, [];
    for i := 0 to |frontier|
      invariant forall x | x in frontier[..i] :: x in topology
      invariant Grown(start, dist, n + 1) && Lists(nxt, dist.Keys - start.Keys)
      invariant dist.Keys == start.Keys + Successors(topology, Elements(frontier[..i]))
    {
      var node := frontier[i];
      if node !in topology {
        missing := Some(node);
        return;
      }
      SuccessorsNext(topology, frontier, i);
      dist, nxt := ExpandNode(topology, start, dist, nxt, node);
    }
    assert frontier[..|frontier|] == frontier;
  }

  /** After n layers: exact distances for the agents within n hops, and the frontier is the nth layer. */
  ghost predicate Explored(topology: Topology, a: AgentId, n: nat, dist: map<AgentId, nat>, frontier: seq<AgentId>) {
    && dist.Keys == Ball(topology, a, n)
    && (forall x | x in dist :: IsDistance(topology, a, x, dist[x]))
    && (forall x | x in dist :: dist[x] < n ==> x in topology)
    && Lists(frontier, Layer(topology, a, n))
    && (forall x | x in dist :: x in frontier <==> dist[x] == n)
    && (forall x | x in dist :: dist[x] <= n)
  }

  lemma ExploredNext(topology: Topology, a: AgentId, n: nat, dist: map<AgentId, nat>, frontier: seq<AgentId>,
                     dist': map<AgentId, nat>, nxt: seq<AgentId>)
    requires Explored(topology, a, n, dist, frontier)
    requires forall x | x in frontier :: x in topology
    requires Grown(dist, dist', n + 1) && Lists(nxt, dist'.Keys - dist.Keys)
    requires dist'.Keys == dist.Keys + Successors(topology, Elements(frontier))
    ensures Explored(topology, a, n + 1, dist', nxt)
  {
    assert Elements(frontier) == Layer(topology, a, n);
    OnlyTheLayerExpands(topology, a, n);
    assert Layer(topology, a, n + 1) == dist'.Keys - dist.Keys;
  }

  /** Everything reachable, all of it in the topology, with its exact distance. */
  ghost predicate Found(topology: Topology, a: AgentId, dist: map<AgentId, nat>) {
    && (forall x {:trigger Reachable(topology, a, x)} :: x in dist <==> Reachable(topology, a, x))
    && (forall x {:trigger IsDistance(topology, a, x, dist[x])} | x in dist :: IsDistance(topology, a, x, dist[x]))
    && dist.Keys <= topology.Keys
  }

  /** An empty frontier means that everything reachable has been found. */
  lemma ExploredAll(topology: Topology, a: AgentId, n: nat, dist: map<AgentId, nat>)
    requires Explored(topology, a, n, dist, [])
    ensures Found(topology, a, dist)
  {
    assert Layer(topology, a, n) == {} by {
      forall x ensures x !in Layer(topology, a, n) {
        assert x !in [];
      }
    }
    forall x ensures x in dist <==> Reachable(topology, a, x) {
      if m: nat :| x in Ball(topology, a, m) {
        BallGrows(topology, a, m, m + n);
        EmptyLayerEnds(topology, a, n, m + n);
      }
    }
  }

  /** No link leads out of `universe`. */
  ghost predicate IsUniverse(topology: Topology, universe: set<AgentId>) {
    Successors(topology, universe) <= universe
  }

  /** Every id that occurs. */
  lemma TakeUniverse(topology: Topology, source: AgentId) returns (universe: set<AgentId>)
    ensures source in universe && IsUniverse(topology, universe)
  {
    universe := {source} + topology.Keys + Successors(topology, topology.Keys);
  }

  lemma ExpansionStaysInside(topology: Topology, universe: set<AgentId>, layer: set<AgentId>)
    requires IsUniverse(topology, universe) && layer <= universe
    ensures Successors(topology, layer) <= universe
  {
  }

  /** A layer adds nodes, or it is the last one. */
  lemma LayerMakesProgress(universe: set<AgentId>, dist: map<AgentId, nat>, dist': map<AgentId, nat>, nxt: seq<AgentId>)
    requires dist.Keys <= dist'.Keys <= universe && Lists(nxt, dist'.Keys - dist.Keys)
    ensures |universe - dist'.Keys| <= |universe - dist.Keys|
    ensures nxt != [] ==> |universe - dist'.Keys| < |universe - dist.Keys|
  {
    Sets.SubsetCardinality(universe - dist'.Keys, universe - dist.Keys);
    if nxt != [] {
      assert nxt[0] in nxt;
      assert nxt[0] in universe - dist.Keys && nxt[0] !in universe - dist'.Keys;
    }
  }

  /** From one layer to the next. */
  method ExploreLayer(topology: Topology, ghost source: AgentId, dist: map<AgentId, nat>, frontier: seq<AgentId>,
                      ghost n: nat, ghost universe: set<AgentId>)
    returns (missing: Option<AgentId>, dist': map<AgentId, nat>, nxt: seq<AgentId>)
    requires Explored(topology, source, n, dist, frontier) && dist.Keys <= universe && IsUniverse(topology, universe)
    ensures missing.Some? ==> missing.value !in topology && Reachable(topology, source, missing.value)
    ensures missing.None? ==>
              && Explored(topology, source, n + 1, dist', nxt) && dist'.Keys <= universe
              && |universe - dist'.Keys| <= |universe - dist.Keys|
              && (nxt != [] ==> |universe - dist'.Keys| < |universe - dist.Keys|)
  {
    missing, dist', nxt := ExpandLayer(topology, dist, frontier, n);
    if missing == None {
      ExploredNext(topology, source, n, dist, frontier, dist', nxt);
      ExpansionStaysInside(topology, universe, Elements(frontier));
      LayerMakesProgress(universe, dist, dist', nxt);
    } else {
      assert missing.value in Ball(topology, source, n);
    }
  }

  lemma ExploredStart(topology: Topology, source: AgentId)
    ensures Explored(topology, source, 0, map[source := 0], [source])
  {
  }

  /** Distances from one source to everything it reaches. */
  method BreadthFirst(topology: Topology, source: AgentId) returns (missing: Option<AgentId>, dist: map<AgentId, nat>)
    ensures missing.Some? ==> missing.value !in topology && Reachable(topology, source, missing.value)
    ensures missing.None? ==> Found(topology, source, dist)
  {
    missing, dist := None, map[source := 0];
    var frontier := [source];
    ghost var n: nat := 0;
    ghost var universe := TakeUniverse(topology, source);
    ExploredStart(topology, source);
    while frontier != []
      invariant missing == None && Explored(topology, source, n, dist, frontier)
      invariant dist.Keys <= universe
      decreases |universe - dist.Keys|, |frontier|
    {
      missing, dist, frontier := ExploreLayer(topology, source, dist, frontier, n, universe);
      if missing != None {
        return;
      }
      n := n + 1;
    }
    ExploredAll(topology, source, n, dist);
  }

  // ------------------------------------------------------ diameter

  datatype DiameterResult = Diameter(hops: nat) | Disconnected | UnknownNode(node: AgentId)

  ghost predicate Closed(topology: Topology) {
    forall a, b {:trigger Edge(topology, a, b)} | Edge(topology, a, b) :: b in topology
  }

  ghost predicate StronglyConnected(topology: Topology) {
    forall a, b {:trigger Reachable(topology, a, b)} | a in topology && b in topology :: Reachable(topology, a, b)
  }

  /** Every node is within `d` hops of `a`. */
  ghost predicate Spans(topology: Topology, a: AgentId, d: nat) {
    forall b {:trigger b in Ball(topology, a, d)} | b in topology :: b in Ball(topology, a, d)
  }

  /** `d` is the least positive number of hops within which every node has every other. */
  ghost predicate IsDiameter(topology: Topology, d: nat) {
    && d >= 1
    && (forall a | a in topology :: Spans(topology, a, d))
    && (d > 1 ==> exists a | a in topology :: !Spans(topology, a, d - 1))
  }

  lemma {:induction false} BallStaysInside(topology: Topology, a: AgentId, n: nat)
    requires Closed(topology) && a in topology
    ensures Ball(topology, a, n) <= topology.Keys
    decreases n
  {
    if n > 0 {
      BallStaysInside(topology, a, n - 1);
      forall x, y | x in Ball(topology, a, n - 1) && x in topology && y in topology[x] ensures y in topology {
        assert Edge(topology, x, y);
      }
    }
  }

  /** A search that reaches fewer nodes than there are shows that the topology is disconnected. */
  lemma IncompleteSearch(topology: Topology, source: AgentId, dist: map<AgentId, nat>)
    requires source in topology && Found(topology, source, dist) && |dist| != |topology|
    ensures !StronglyConnected(topology)
  {
    assert |dist| == |dist.Keys| && |topology| == |topology.Keys|;
    var x := Sets.Pick(topology.Keys - dist.Keys);
    assert !Reachable(topology, source, x);
  }

  lemma CompleteSearch(topology: Topology, source: AgentId, dist: map<AgentId, nat>)
    requires Found(topology, source, dist) && |dist| == |topology|
    ensures dist.Keys == topology.Keys
  {
    assert |dist| == |dist.Keys| && |topology| == |topology.Keys|;
    Sets.SubsetCardinality(dist.Keys, topology.Keys);
  }

  method Largest(dist: map<AgentId, nat>) returns (max: nat)
    requires dist != map[]
    ensures (forall x | x in dist :: dist[x] <= max) && exists x | x in dist :: dist[x] == max
  {
    var first :| first in dist;
    max := dist[first];
    var todo := dist.Keys - {first};
    while todo != {}
      invariant todo <= dist.Keys
      invariant forall x | x in dist.Keys - todo :: dist[x] <= max
      invariant exists x | x in dist :: dist[x] == max
    {
      var x :| x in todo;
      todo := todo - {x};
      if dist[x] > max {
        max := dist[x];
      }
    }
  }

  lemma SpansMore(topology: Topology, a: AgentId, d: nat, d': nat)
    requires Spans(topology, a, d) && d <= d'
    ensures Spans(topology, a, d')
  {
    BallGrows(topology, a, d, d');
  }

  /** The largest distance from a source is the least number of hops that spans the topology. */
  lemma LargestSpans(topology: Topology, a: AgentId, dist: map<AgentId, nat>, far: nat)
    requires Found(topology, a, dist) && dist.Keys == topology.Keys
    requires (forall x | x in dist :: dist[x] <= far) && exists x | x in dist :: dist[x] == far
    ensures Spans(topology, a, far) && (far > 0 ==> !Spans(topology, a, far - 1))
  {
    forall b | b in topology ensures b in Ball(topology, a, far) {
      assert IsDistance(topology, a, b, dist[b]);
      BallGrows(topology, a, dist[b], far);
    }
    var x :| x in dist && dist[x] == far;
    assert IsDistance(topology, a, x, dist[x]);
  }

  /** `best` is the least number of hops within which every source in `done` has every node. */
  ghost predicate IsLongest(topology: Topology, done: set<AgentId>, best: nat) {
    && (forall a | a in done :: Spans(topology, a, best))
    && (best > 0 ==> exists a | a in done :: !Spans(topology, a, best - 1))
  }

  lemma LongestNext(topology: Topology, done: set<AgentId>, best: nat, source: AgentId, far: nat)
    requires IsLongest(topology, done, best)
    requires Spans(topology, source, far) && (far > 0 ==> !Spans(topology, source, far - 1))
    ensures IsLongest(topology, done + {source}, if far > best then far else best)
  {
    var best' := if far > best then far else best;
    forall a | a in done + {source} ensures Spans(topology, a, best') {
      SpansMore(topology, a, if a in done then best else far, best');
    }
    if far > best {
      assert source in done + {source};
    } else if best > 0 {
      var a :| a in done && !Spans(topology, a, best - 1);
      assert a in done + {source};
    }
  }

  lemma LongestIsDiameter(topology: Topology, best: nat)
    requires IsLongest(topology, topology.Keys, best)
    ensures StronglyConnected(topology)
    ensures IsDiameter(topology, if best > 1 then best else 1)
  {
    forall a | a in topology ensures Spans(topology, a, if best > 1 then best else 1) {
      SpansMore(topology, a, best, if best > 1 then best else 1);
    }
    forall a, b | a in topology && b in topology ensures Reachable(topology, a, b) {
      assert b in Ball(topology, a, best);
    }
  }

  /** Nothing outside the topology can be reached. */
  ghost predicate StaysInside(topology: Topology, a: AgentId) {
    forall x | Reachable(topology, a, x) :: x in topology
  }

  lemma FoundStaysInside(topology: Topology, a: AgentId, dist: map<AgentId, nat>)
    requires Found(topology, a, dist)
    ensures StaysInside(topology, a)
  {
  }

  lemma UnknownNodeMeansOpen(topology: Topology, source: AgentId, node: AgentId)
    requires source in topology && node !in topology && Reachable(topology, source, node)
    ensures !Closed(topology)
  {
    if Closed(topology) {
      var n: nat :| node in Ball(topology, source, n);
      BallStaysInside(topology, source, n);
      assert false;
    }
  }

  /** Searches that succeed from every source show that the topology is closed. */
  lemma FoundFromAllMeansClosed(topology: Topology)
    requires forall a | a in topology :: StaysInside(topology, a)
    ensures Closed(topology)
  {
    forall a, b | Edge(topology, a, b) ensures b in topology {
      assert StaysInside(topology, a);
      assert b in Ball(topology, a, 1);
    }
  }

  /** The search from one source: its largest distance, or why there is no diameter. */
  method MeasureSource(topology: Topology, source: AgentId) returns (r: DiameterResult)
    requires source in topology
    ensures r.Diameter? ==>
              && Spans(topology, source, r.hops) && (r.hops > 0 ==> !Spans(topology, source, r.hops - 1))
              && StaysInside(topology, source)
    ensures !r.Diameter? ==> !(Closed(topology) && StronglyConnected(topology))
    ensures r.UnknownNode? ==> r.node !in topology
  {
    var missing, dist := BreadthFirst(topology, source);
    if missing != None {
      UnknownNodeMeansOpen(topology, source, missing.value);
      return UnknownNode(missing.value);
    }
    if |dist| != |topology| {
      IncompleteSearch(topology, source, dist);
      return Disconnected;
    }
    CompleteSearch(topology, source, dist);
    FoundStaysInside(topology, source, dist);
    var far := Largest(dist);
    LargestSpans(topology, source, dist, far);
    return Diameter(far);
  }

  /** The longest shortest path, at least 1; no diameter unless every node reaches every other. */
  method ComputeDiameter(topology: Topology) returns (r: DiameterResult)
    ensures r.Diameter? <==> Closed(topology) && StronglyConnected(topology)
    ensures r.Diameter? ==> IsDiameter(topology, r.hops)
    ensures r.UnknownNode? ==> r.node !in topology
  {
    var best: nat := 0;
    var todo := topology.Keys;
    while todo != {}
      invariant todo <= topology.Keys
      invariant IsLongest(topology, topology.Keys - todo, best)
      invariant forall a | a in topology.Keys - todo :: StaysInside(topology, a)
    {
      var source :| source in todo;
      var measured := MeasureSource(topology, source);
      if !measured.Diameter? {
        return measured;
      }
      LongestNext(topology, topology.Keys - todo, best, source, measured.hops);
      assert topology.Keys - todo + {source} == topology.Keys - (todo - {source});
      best := if measured.hops > best then measured.hops else best;
      todo := todo - {source};
    }
    assert topology.Keys - {} == topology.Keys;
    FoundFromAllMeansClosed(topology);
    LongestIsDiameter(topology, best);
    return Diameter(if best > 1 then best else 1);
  }

  // ------------------------------------------------------ the worst case

  lemma LayerBefore(topology: Topology, a: AgentId, n: nat)
    requires n > 0 && Layer(topology, a, n) != {}
    ensures Layer(topology, a, n - 1) != {}
  {
    if Layer(topology, a, n - 1) == {} {
      EmptyLayerEnds(topology, a, n - 1, n);
    }
  }

  /** Until a layer is empty every layer adds a node. */
  lemma {:induction false} LayersAddUp(topology: Topology, a: AgentId, n: nat)
    requires Layer(topology, a, n) != {}
    ensures |Ball(topology, a, n)| > n
    decreases n
  {
    if n > 0 {
      LayerBefore(topology, a, n);
      LayersAddUp(topology, a, n - 1);
      Sets.Partition(Ball(topology, a, n), Ball(topology, a, n - 1), Layer(topology, a, n));
    }
  }

  /** No diameter exceeds the number of nodes less one, the diameter of a line. */
  lemma DiameterIsBelowSize(topology: Topology, d: nat)
    requires Closed(topology) && IsDiameter(topology, d)
    ensures d > 1 ==> d < |topology|
  {
    if d > 1 {
      var a :| a in topology && !Spans(topology, a, d - 1);
      var b :| b in topology && b !in Ball(topology, a, d - 1);
      assert Spans(topology, a, d);
      assert b in Layer(topology, a, d);
      LayersAddUp(topology, a, d);
      BallStaysInside(topology, a, d);
      Sets.SubsetCardinality(Ball(topology, a, d), topology.Keys);
    }
  }

  lemma AllSpanMore(topology: Topology, n: nat, m: nat)
    requires n <= m && forall a | a in topology :: Spans(topology, a, n)
    ensures forall a | a in topology :: Spans(topology, a, m)
  {
    forall a | a in topology ensures Spans(topology, a, m) {
      SpansMore(topology, a, n, m);
    }
  }

  /** No smaller number of hops will do. */
  lemma DiameterIsLeast(topology: Topology, d: nat, n: nat)
    requires IsDiameter(topology, d) && n >= 1 && forall a | a in topology :: Spans(topology, a, n)
    ensures d <= n
  {
    if n < d {
      AllSpanMore(topology, n, d - 1);
    }
  }
}
