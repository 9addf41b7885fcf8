/** The routers' map as a directed graph, walks, hop distances, and forwarding along tables that get one hop closer. */
module Topology {

  /** Entry v of row u tells whether router u has a route to v; the row of a number no router has is empty. */
  type Graph = seq<seq<bool>>

  predicate Edge(g: Graph, u: nat, v: nat) {
    u < |g| && v < |g[u]| && g[u][v]
  }

  /** A walk of k edges from u to v. */
  ghost predicate Reach(g: Graph, u: nat, v: nat, k: nat)
    decreases k
  {
    if k == 0 then u == v else exists w :: Reach(g, u, w, k - 1) && Edge(g, w, v)
  }

  /** The least number of edges of a walk from u to v is k. */
  ghost predicate Distance(g: Graph, u: nat, v: nat, k: nat) {
    Reach(g, u, v, k) && forall j :: 0 <= j < k ==> !Reach(g, u, v, j)
  }

  ghost predicate Connected(g: Graph, u: nat, v: nat) {
    exists k :: Reach(g, u, v, k)
  }

  lemma {:induction false} LeastWalk(g: Graph, u: nat, v: nat, k: nat) returns (d: nat)
    requires Reach(g, u, v, k)
    ensures d <= k && Distance(g, u, v, d)
    decreases k
  {
    if j :| 0 <= j < k && Reach(g, u, v, j) {
      d := LeastWalk(g, u, v, j);
    } else {
      d := k;
    }
  }

  lemma DistanceExists(g: Graph, u: nat, v: nat)
    requires Connected(g, u, v)
    ensures exists d :: Distance(g, u, v, d)
  {
    var k :| Reach(g, u, v, k);
    var d := LeastWalk(g, u, v, k);
  }

  /** The hop count from u to v. */
  ghost function Hops(g: Graph, u: nat, v: nat): (d: nat)
    requires Connected(g, u, v)
    ensures Distance(g, u, v, d)
  {
    DistanceExists(g, u, v);
    var d :| Distance(g, u, v, d);
    d
  }

  lemma DistanceIsUnique(g: Graph, u: nat, v: nat, d: nat, e: nat)
    requires Distance(g, u, v, d) && Distance(g, u, v, e)
    ensures d == e
  {}

  lemma UnlikeDistances(g: Graph, u: nat, v: nat, w: nat, d: nat, e: nat)
    requires Distance(g, u, v, d) && Distance(g, u, w, e) && d < e
    ensures v != w
  {}

  lemma {:induction false} ReachConcat(g: Graph, u: nat, w: nat, v: nat, a: nat, b: nat)
    requires Reach(g, u, w, a) && Reach(g, w, v, b)
    ensures Reach(g, u, v, a + b)
    decreases b
  {
    if b > 0 {
      var x :| Reach(g, w, x, b - 1) && Edge(g, x, v);
      ReachConcat(g, u, w, x, a, b - 1);
    }
  }

  lemma EdgeIsWalk(g: Graph, u: nat, v: nat)
    requires Edge(g, u, v)
    ensures Reach(g, u, v, 1)
  {
    assert Reach(g, u, u, 0);
  }

  /** A neighbour of u from which v is a walk of d - 1 away, d the distance from u, is one hop closer. */
  lemma CloserNeighbour(g: Graph, u: nat, h: nat, v: nat, d: nat)
    requires Distance(g, u, v, d) && d > 0 && Edge(g, u, h) && Reach(g, h, v, d - 1)
    ensures Distance(g, h, v, d - 1)
  {
    EdgeIsWalk(g, u, h);
    forall j | 0 <= j < d - 1 ensures !Reach(g, h, v, j) {
      if Reach(g, h, v, j) {
        ReachConcat(g, u, h, v, 1, j);
      }
    }
  }

  // Distances stay below the number of routers

  /** A shortest walk passes one vertex at each smaller distance. */
  lemma {:induction false} OnePerDistance(g: Graph, u: nat, v: nat, d: nat) returns (s: seq<nat>)
    requires Distance(g, u, v, d)
    ensures |s| == d + 1 && s[d] == v
    ensures forall i :: 0 <= i <= d ==> Distance(g, u, s[i], i)
    decreases d
  {
    if d == 0 {
      s := [v];
    } else {
      var w :| Reach(g, u, w, d - 1) && Edge(g, w, v);
      EdgeIsWalk(g, w, v);
      forall j | 0 <= j < d - 1 ensures !Reach(g, u, w, j) {
        if Reach(g, u, w, j) {
          ReachConcat(g, u, w, v, j, 1);
        }
      }
      s := OnePerDistance(g, u, w, d - 1);
      s := s + [v];
    }
  }

  lemma {:induction false} DistinctFit(s: seq<nat>, t: set<nat>)
    requires forall i, j :: 0 <= i < j < |s| ==> s[i] != s[j]
    requires forall i :: 0 <= i < |s| ==> s[i] in t
    ensures |s| <= |t|
    decreases |s|
  {
    if s != [] {
      var last := s[|s| - 1];
      DistinctFit(s[..|s| - 1], t - {last});
    }
  }

  /** With all of u's reach inside a set of n vertices, no distance from u is n or more. */
  lemma DistanceBelowSize(g: Graph, u: nat, v: nat, d: nat, vertices: set<nat>)
    requires Distance(g, u, v, d)
    requires forall w, k :: Reach(g, u, w, k) ==> w in vertices
    ensures d < |vertices|
  {
    var s := OnePerDistance(g, u, v, d);
    forall i, j | 0 <= i < j < |s| ensures s[i] != s[j] {
      UnlikeDistances(g, u, s[i], s[j], i, j);
    }
    DistinctFit(s, vertices);
  }

  // Forwarding

  /** A next-hop table for every router: entry (u, v) is the neighbour u sends packets for v to. */
  type Tables = map<(nat, nat), nat>

  /** Each entry leads to a neighbour exactly one hop closer, and no entry is missing. */
  ghost predicate Closer(g: Graph, t: Tables, vertices: set<nat>) {
    forall u, v :: u in vertices && v in vertices && u != v ==>
      && Connected(g, u, v)
      && (u, v) in t && t[(u, v)] in vertices && Edge(g, u, t[(u, v)])
      && Connected(g, t[(u, v)], v) && Hops(g, t[(u, v)], v) == Hops(g, u, v) - 1
  }

  lemma HopsZero(g: Graph, u: nat)
    ensures Connected(g, u, u) && Hops(g, u, u) == 0
  {
    assert Reach(g, u, u, 0);
  }

  /** Where a packet for v is after k hops from u. */
  ghost function Position(g: Graph, t: Tables, vertices: set<nat>, u: nat, v: nat, k: nat): (w: nat)
    requires Closer(g, t, vertices) && u in vertices && v in vertices
    ensures w in vertices
    decreases k
  {
    if k == 0 || u == v then u else Position(g, t, vertices, t[(u, v)], v, k - 1)
  }

  /** After k hops the packet is k hops closer, whatever router built which table; after the distance it has arrived. */
  lemma {:induction false} ForwardingIsShortest(g: Graph, t: Tables, vertices: set<nat>, u: nat, v: nat, k: nat)
    requires Closer(g, t, vertices) && u in vertices && v in vertices
    ensures Connected(g, u, v)
    ensures var w := Position(g, t, vertices, u, v, k);
      Connected(g, w, v) && Hops(g, w, v) == if k < Hops(g, u, v) then Hops(g, u, v) - k else 0
    decreases k
  {
    hide Reach, Distance, Closer;
    HopsZero(g, v);
    if u != v {
      NextHop(g, t, vertices, u, v);
      if k > 0 {
        ForwardingIsShortest(g, t, vertices, t[(u, v)], v, k - 1);
      }
    }
  }

  lemma NextHop(g: Graph, t: Tables, vertices: set<nat>, u: nat, v: nat)
    requires Closer(g, t, vertices) && u in vertices && v in vertices && u != v
    ensures (u, v) in t && t[(u, v)] in vertices && Connected(g, u, v) && Connected(g, t[(u, v)], v)
    ensures Hops(g, t[(u, v)], v) == Hops(g, u, v) - 1
  {}

  /** A packet arrives after exactly the hop distance, and passes no router twice on the way. */
  lemma ForwardingNeverLoops(g: Graph, t: Tables, vertices: set<nat>, u: nat, v: nat)
    requires Closer(g, t, vertices) && u in vertices && v in vertices
    ensures Connected(g, u, v)
    ensures forall k :: 0 <= k ==> (Position(g, t, vertices, u, v, k) == v <==> k >= Hops(g, u, v))
    ensures forall i, j :: 0 <= i < j <= Hops(g, u, v) ==>
      Position(g, t, vertices, u, v, i) != Position(g, t, vertices, u, v, j)
  {
    ForwardingIsShortest(g, t, vertices, u, v, 0);
    HopsZero(g, v);
    forall k: nat ensures Position(g, t, vertices, u, v, k) == v <==> k >= Hops(g, u, v) {
      ForwardingIsShortest(g, t, vertices, u, v, k);
      var w := Position(g, t, vertices, u, v, k);
      if k >= Hops(g, u, v) {
        assert Reach(g, w, v, 0);
      }
    }
    forall i, j | 0 <= i < j <= Hops(g, u, v)
      ensures Position(g, t, vertices, u, v, i) != Position(g, t, vertices, u, v, j)
    {
      ForwardingIsShortest(g, t, vertices, u, v, i);
      ForwardingIsShortest(g, t, vertices, u, v, j);
    }
  }

  // Building the map

  /** s with x at position i, padded with `fill` if it was shorter. */
  function Put<T>(s: seq<T>, i: nat, x: T, fill: T): (r: seq<T>)
    ensures |r| == if i < |s| then |s| else i + 1
    ensures r[i] == x
    ensures forall k :: 0 <= k < |r| && k != i ==> r[k] == if k < |s| then s[k] else fill
  {
    if i < |s| then s[i := x] else s + seq(i - |s|, _ => fill) + [x]
  }

  /** A graph with room for router n. */
  function Grow(g: Graph, n: nat): (r: Graph)
    ensures n < |r| && |g| <= |r|
    ensures forall u :: 0 <= u < |r| ==> r[u] == if u < |g| then g[u] else []
  {
    if n < |g| then g else Put(g, n, [], [])
  }

  function PutEdge(g: Graph, u: nat, v: nat): (r: Graph)
    requires u < |g|
    ensures |r| == |g|
    ensures forall a: nat, b: nat :: Edge(r, a, b) <==> Edge(g, a, b) || (a == u && b == v)
  {
    g[u := Put(g[u], v, true, false)]
  }

  /** One line of the map file: it makes a route in each direction. */
  datatype MapLine = MapLine(from: nat, to: nat, rate: nat, latency: real, queuemax: nat)

  function AddLine(g: Graph, line: MapLine): Graph {
    PutEdge(PutEdge(Grow(Grow(g, line.to), line.from), line.to, line.from), line.from, line.to)
  }

  function GraphOf(lines: seq<MapLine>): Graph {
    if lines == [] then [] else AddLine(GraphOf(lines[..|lines| - 1]), lines[|lines| - 1])
  }

  predicate Joins(line: MapLine, u: nat, v: nat) {
    (line.from == u && line.to == v) || (line.from == v && line.to == u)
  }

  lemma GrowKeepsEdges(g: Graph, n: nat, u: nat, v: nat)
    ensures Edge(Grow(g, n), u, v) <==> Edge(g, u, v)
  {}

  lemma AddLineEdges(g: Graph, line: MapLine, u: nat, v: nat)
    ensures Edge(AddLine(g, line), u, v) <==> Edge(g, u, v) || Joins(line, u, v)
  {
    hide Edge, Grow;
    var h := Grow(Grow(g, line.to), line.from);
    GrowKeepsEdges(g, line.to, u, v);
    GrowKeepsEdges(Grow(g, line.to), line.from, u, v);
    assert Edge(PutEdge(h, line.to, line.from), u, v) <==> Edge(h, u, v) || (u == line.to && v == line.from);
  }

  /** The graph has exactly the routes of the lines, in both directions. */
  lemma {:induction false} GraphOfLines(lines: seq<MapLine>, u: nat, v: nat)
    ensures Edge(GraphOf(lines), u, v) <==> exists i :: 0 <= i < |lines| && Joins(lines[i], u, v)
    decreases |lines|
  {
    hide Edge, AddLine;
    if lines == [] {
      NoEdges(u, v);
    } else {
      var init, last := lines[..|lines| - 1], lines[|lines| - 1];
      GraphOfLines(init, u, v);
      AddLineEdges(GraphOf(init), last, u, v);
      assert forall i :: 0 <= i < |init| ==> init[i] == lines[i];
    }
  }

  lemma NoEdges(u: nat, v: nat)
    ensures !Edge([], u, v)
  {}

  ghost predicate Symmetric(g: Graph) {
    forall u: nat, v: nat :: Edge(g, u, v) ==> Edge(g, v, u)
  }

  lemma GraphOfIsSymmetric(lines: seq<MapLine>)
    ensures Symmetric(GraphOf(lines))
  {
    forall u: nat, v: nat | Edge(GraphOf(lines), u, v) ensures Edge(GraphOf(lines), v, u) {
      GraphOfLines(lines, u, v);
      GraphOfLines(lines, v, u);
    }
  }

  lemma {:induction false} WalkBack(g: Graph, u: nat, v: nat, k: nat)
    requires Symmetric(g) && Reach(g, u, v, k)
    ensures Reach(g, v, u, k)
    decreases k
  {
    if k > 0 {
      var w :| Reach(g, u, w, k - 1) && Edge(g, w, v);
      WalkBack(g, u, w, k - 1);
      EdgeIsWalk(g, v, w);
      ReachConcat(g, v, w, u, 1, k - 1);
    }
  }

  /** On a symmetric map, if one router reaches all, every router reaches every other. */
  lemma OneReachesAll(g: Graph, root: nat, u: nat, v: nat)
    requires Symmetric(g) && Connected(g, root, u) && Connected(g, root, v)
    ensures Connected(g, u, v)
  {
    var j, k :| Reach(g, root, u, j) && Reach(g, root, v, k);
    WalkBack(g, root, u, j);
    ReachConcat(g, u, root, v, j, k);
  }
}
