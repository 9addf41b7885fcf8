/** The labels that NSRouter::createTable leaves on the routers while it runs, and why they end up right. */
module Dijkstra {
  import opened Topology

  const INFINITY := 65535

  /** `distance` and `done` of every router, and the number of its `predecessor`, -1 if it has none. */
  datatype Labels = Labels(dist: seq<int>, pred: seq<int>, done: seq<bool>)

  /** A predecessor, whichever run set it, has a route to the router whose predecessor it is. */
  ghost predicate Linked(g: Graph, pred: seq<int>) {
    forall v :: 0 <= v < |pred| && pred[v] != -1 ==> 0 <= pred[v] && Edge(g, pred[v], v)
  }

  /** Routes lead from routers to routers. */
  ghost predicate GraphOn(g: Graph, vertices: set<nat>) {
    && (forall v :: v in vertices ==> v < |g|)
    && (forall u: nat, v: nat {:trigger Edge(g, u, v)} :: Edge(g, u, v) ==> u in vertices && v in vertices)
  }

  ghost predicate Sized(g: Graph, l: Labels) {
    |l.dist| == |l.pred| == |l.done| == |g|
  }

  /** A finite distance is the length of a walk from the source. */
  ghost predicate Walks(g: Graph, vertices: set<nat>, l: Labels, src: nat)
    requires GraphOn(g, vertices) && Sized(g, l)
  {
    forall v :: v in vertices ==> 0 <= l.dist[v] <= INFINITY && (l.dist[v] < INFINITY ==> Reach(g, src, v, l.dist[v]))
  }

  /** The predecessor of v is a router one step back that is finished, or the one being expanded. */
  ghost predicate Preceded(g: Graph, vertices: set<nat>, l: Labels, v: nat, cur: int)
    requires GraphOn(g, vertices) && Sized(g, l) && v < |g|
  {
    var p := l.pred[v];
    0 <= p && p in vertices && Edge(g, p, v) && l.dist[p] + 1 == l.dist[v] && (l.done[p] || p == cur)
  }

  ghost predicate AllPreceded(g: Graph, vertices: set<nat>, l: Labels, src: nat, cur: int)
    requires GraphOn(g, vertices) && Sized(g, l)
  {
    forall v :: v in vertices && v != src && l.dist[v] < INFINITY ==> Preceded(g, vertices, l, v, cur)
  }

  /** Every route of a finished router, and the routes below k of the one being expanded, are relaxed. */
  ghost predicate Tight(g: Graph, vertices: set<nat>, l: Labels, cur: int, k: nat)
    requires GraphOn(g, vertices) && Sized(g, l)
  {
    forall u: nat, v: nat {:trigger Edge(g, u, v)} :: Edge(g, u, v) ==>
      u in vertices && v in vertices && (l.done[u] || (u == cur && v < k) ==> l.dist[v] <= l.dist[u] + 1)
  }

  /** No finished router is further away than an unfinished one. */
  ghost predicate Ordered(vertices: set<nat>, l: Labels)
    requires forall v :: v in vertices ==> v < |l.dist| == |l.done|
  {
    forall u, v :: u in vertices && v in vertices && l.done[u] && !l.done[v] ==> l.dist[u] <= l.dist[v]
  }

  /** `cur` is not done, and no router that is not done is nearer. */
  ghost predicate Nearest(vertices: set<nat>, l: Labels, cur: int)
    requires forall v :: v in vertices ==> v < |l.dist| == |l.done|
  {
    && 0 <= cur && cur in vertices && !l.done[cur]
    && forall v :: v in vertices && !l.done[v] ==> l.dist[cur] <= l.dist[v]
  }

  /** The invariant of the main loop, with router `cur` being expanded (-1 if none) and its routes below k relaxed. */
  ghost predicate Labelled(g: Graph, vertices: set<nat>, l: Labels, src: nat, cur: int, k: nat) {
    && GraphOn(g, vertices) && Sized(g, l) && src in vertices && l.dist[src] == 0
    && Walks(g, vertices, l, src)
    && AllPreceded(g, vertices, l, src, cur)
    && Tight(g, vertices, l, cur, k)
    && Ordered(vertices, l)
    && Linked(g, l.pred)
    && (cur != -1 ==> Nearest(vertices, l, cur))
  }

  /** The base state: predecessors are as the last run left them. */
  function Start(src: nat, pred: seq<int>): Labels {
    Labels(seq(|pred|, v => if v == src then 0 else INFINITY), pred, seq(|pred|, _ => false))
  }

  lemma StartLabelled(g: Graph, vertices: set<nat>, src: nat, pred: seq<int>)
    requires GraphOn(g, vertices) && src in vertices && |pred| == |g| && Linked(g, pred)
    ensures Labelled(g, vertices, Start(src, pred), src, -1, 0)
  {}

  lemma SelectLabelled(g: Graph, vertices: set<nat>, l: Labels, src: nat, cur: nat)
    requires Labelled(g, vertices, l, src, -1, 0) && Nearest(vertices, l, cur)
    ensures Labelled(g, vertices, l, src, cur, 0)
  {}

  /** Shortening the distance of cur's neighbour k. */
  function Relax(l: Labels, cur: nat, k: nat): Labels
    requires cur < |l.dist| == |l.pred| && k < |l.dist|
  {
    Labels(l.dist[k := l.dist[cur] + 1], l.pred[k := cur], l.done)
  }

  lemma RelaxLabelled(g: Graph, vertices: set<nat>, l: Labels, src: nat, cur: nat, k: nat)
    requires Labelled(g, vertices, l, src, cur, k) && Edge(g, cur, k)
    requires l.dist[k] > l.dist[cur] + 1
    ensures Labelled(g, vertices, Relax(l, cur, k), src, cur, k + 1)
    ensures k != src && !l.done[k]
  {
    hide Reach, Edge, Walks, AllPreceded, Ordered, Linked;
    RelaxKeepsLinked(g, l, cur, k);
    RelaxedIsOpen(g, vertices, l, src, cur, k);
    RelaxKeepsWalks(g, vertices, l, src, cur, k);
    RelaxKeepsPreceded(g, vertices, l, src, cur, k);
    RelaxKeepsOrdered(vertices, l, cur, k);
  }

  /** A router whose distance can be shortened is not finished, and has no finished successor. */
  lemma RelaxedIsOpen(g: Graph, vertices: set<nat>, l: Labels, src: nat, cur: nat, k: nat)
    requires Labelled(g, vertices, l, src, cur, k) && Edge(g, cur, k) && l.dist[k] > l.dist[cur] + 1
    ensures cur in vertices && k in vertices && !l.done[k] && k != cur && k != src
  {}

  lemma RelaxKeepsLinked(g: Graph, l: Labels, cur: nat, k: nat)
    requires Sized(g, l) && Linked(g, l.pred) && Edge(g, cur, k) && cur < |g| && k < |g|
    ensures Linked(g, Relax(l, cur, k).pred)
  {
    hide Edge;
  }

  lemma RelaxKeepsWalks(g: Graph, vertices: set<nat>, l: Labels, src: nat, cur: nat, k: nat)
    requires GraphOn(g, vertices) && Sized(g, l) && Walks(g, vertices, l, src) && Edge(g, cur, k)
    requires cur in vertices && k in vertices && l.dist[k] > l.dist[cur] + 1
    ensures Walks(g, vertices, Relax(l, cur, k), src)
  {
    hide Reach;
    WalkGrows(g, src, cur, k, l.dist[cur]);
  }

  lemma RelaxKeepsPreceded(g: Graph, vertices: set<nat>, l: Labels, src: nat, cur: nat, k: nat)
    requires GraphOn(g, vertices) && Sized(g, l) && AllPreceded(g, vertices, l, src, cur) && Edge(g, cur, k)
    requires cur in vertices && k in vertices && !l.done[k] && k != cur
    ensures AllPreceded(g, vertices, Relax(l, cur, k), src, cur)
  {
    var m := Relax(l, cur, k);
    forall v | v in vertices && v != src && m.dist[v] < INFINITY ensures Preceded(g, vertices, m, v, cur) {
      assert v != k ==> Preceded(g, vertices, l, v, cur);
    }
  }

  lemma RelaxKeepsOrdered(vertices: set<nat>, l: Labels, cur: nat, k: nat)
    requires forall v :: v in vertices ==> v < |l.dist| == |l.done| == |l.pred|
    requires Ordered(vertices, l) && Nearest(vertices, l, cur) && k in vertices && !l.done[k]
    ensures Ordered(vertices, Relax(l, cur, k))
  {}

  lemma WalkGrows(g: Graph, u: nat, w: nat, v: nat, d: nat)
    requires Reach(g, u, w, d) && Edge(g, w, v)
    ensures Reach(g, u, v, d + 1)
  {}

  lemma KeepLabelled(g: Graph, vertices: set<nat>, l: Labels, src: nat, cur: nat, k: nat)
    requires Labelled(g, vertices, l, src, cur, k)
    requires Edge(g, cur, k) ==> l.dist[k] <= l.dist[cur] + 1
    ensures Labelled(g, vertices, l, src, cur, k + 1)
  {}

  lemma DoneLabelled(g: Graph, vertices: set<nat>, l: Labels, src: nat, cur: nat, k: nat)
    requires Labelled(g, vertices, l, src, cur, k) && cur < |g| && |g[cur]| <= k
    ensures Labelled(g, vertices, l.(done := l.done[cur := true]), src, -1, 0)
  {
    hide Reach;
    var m := l.(done := l.done[cur := true]);
    assert AllPreceded(g, vertices, m, src, -1) by {
      forall v | v in vertices && v != src && m.dist[v] < INFINITY ensures Preceded(g, vertices, m, v, -1) {
        assert Preceded(g, vertices, l, v, cur);
      }
    }
  }

  ghost predicate AllDone(g: Graph, vertices: set<nat>, l: Labels, src: nat) {
    Labelled(g, vertices, l, src, -1, 0) && forall v :: v in vertices ==> l.done[v]
  }

  lemma {:induction false} NoWalkIsShorter(g: Graph, vertices: set<nat>, l: Labels, src: nat, v: nat, k: nat)
    requires AllDone(g, vertices, l, src) && Reach(g, src, v, k)
    ensures v in vertices && l.dist[v] <= k
    decreases k
  {
    if k > 0 {
      var w :| Reach(g, src, w, k - 1) && Edge(g, w, v);
      NoWalkIsShorter(g, vertices, l, src, w, k - 1);
    }
  }

  /** When all routers are done, the labels are the hop distances, and 65535 marks exactly what cannot be reached. */
  lemma DoneIsShortest(g: Graph, vertices: set<nat>, l: Labels, src: nat, v: nat)
    requires AllDone(g, vertices, l, src) && v in vertices && |vertices| <= INFINITY
    ensures Connected(g, src, v) <==> l.dist[v] < INFINITY
    ensures l.dist[v] < INFINITY ==> Distance(g, src, v, l.dist[v])
  {
    if l.dist[v] < INFINITY {
      assert Reach(g, src, v, l.dist[v]);
      forall j | 0 <= j < l.dist[v] ensures !Reach(g, src, v, j) {
        if Reach(g, src, v, j) {
          NoWalkIsShorter(g, vertices, l, src, v, j);
        }
      }
    } else if Connected(g, src, v) {
      var d := Hops(g, src, v);
      forall w, k | Reach(g, src, w, k) ensures w in vertices {
        NoWalkIsShorter(g, vertices, l, src, w, k);
      }
      DistanceBelowSize(g, src, v, d, vertices);
      NoWalkIsShorter(g, vertices, l, src, v, d);
    }
  }

  /** Router s lies on a shortest way from src to v, which the predecessors lead back along. */
  ghost predicate OnTheWay(g: Graph, vertices: set<nat>, l: Labels, src: nat, v: nat, s: nat)
    requires Sized(g, l) && v < |g|
  {
    && s in vertices && s < |g| && s != src && 0 < l.dist[s] <= l.dist[v] < INFINITY
    && Reach(g, s, v, l.dist[v] - l.dist[s])
  }

  lemma StepBack(g: Graph, vertices: set<nat>, l: Labels, src: nat, v: nat, s: nat)
    requires AllDone(g, vertices, l, src) && v in vertices && OnTheWay(g, vertices, l, src, v, s)
    ensures Preceded(g, vertices, l, s, -1) && l.dist[l.pred[s]] == l.dist[s] - 1
    ensures l.pred[s] != src ==> OnTheWay(g, vertices, l, src, v, l.pred[s])
    ensures l.pred[s] == src ==> Edge(g, src, s) && l.dist[s] == 1
  {
    hide Reach, Edge, Tight, Ordered, Linked;
    assert Preceded(g, vertices, l, s, -1);
    var p := l.pred[s];
    EdgeIsWalk(g, p, s);
    ReachConcat(g, p, s, v, 1, l.dist[v] - l.dist[s]);
    NoStepIsHome(g, src, p);
  }

  lemma NoStepIsHome(g: Graph, u: nat, v: nat)
    ensures Reach(g, u, v, 0) <==> u == v
  {}

  /** The first router of the way back is a neighbour of src one hop closer to v. */
  lemma FirstHopIsCloser(g: Graph, vertices: set<nat>, l: Labels, src: nat, v: nat, s: nat)
    requires AllDone(g, vertices, l, src) && |vertices| <= INFINITY
    requires v in vertices && OnTheWay(g, vertices, l, src, v, s) && l.pred[s] == src
    ensures Edge(g, src, s) && Connected(g, src, v) && Connected(g, s, v)
    ensures Hops(g, s, v) == Hops(g, src, v) - 1
  {
    hide Reach;
    StepBack(g, vertices, l, src, v, s);
    DoneIsShortest(g, vertices, l, src, v);
    var d := l.dist[v];
    CloserNeighbour(g, src, s, v, d);
    assert Reach(g, src, v, d) && Reach(g, s, v, d - 1);
    DistanceIsUnique(g, src, v, d, Hops(g, src, v));
    DistanceIsUnique(g, s, v, d - 1, Hops(g, s, v));
  }

  // The walk back, and the maps on which it ends

  /** Where k steps back from v along the predecessors lead, -1 once there is none. */
  function Back(pred: seq<int>, v: int, k: nat): int
    decreases k
  {
    if k == 0 || !(0 <= v < |pred|) then v else Back(pred, pred[v], k - 1)
  }

  /** From a router on a shortest way, the steps back lead to the source. */
  lemma {:induction false} WalkBackArrives(g: Graph, vertices: set<nat>, l: Labels, src: nat, v: nat, s: nat)
    requires AllDone(g, vertices, l, src) && v in vertices && OnTheWay(g, vertices, l, src, v, s)
    ensures Back(l.pred, s, l.dist[s]) == src
    decreases l.dist[s]
  {
    hide AllDone, OnTheWay, Preceded;
    var p := PredecessorOf(g, vertices, l, src, v, s);
    if p == src {
      assert Back(l.pred, p, 0) == src;
    } else {
      WalkBackArrives(g, vertices, l, src, v, p);
    }
  }

  lemma PredecessorOf(g: Graph, vertices: set<nat>, l: Labels, src: nat, v: nat, s: nat) returns (p: nat)
    requires AllDone(g, vertices, l, src) && v in vertices && OnTheWay(g, vertices, l, src, v, s)
    ensures s < |l.pred| == |l.dist| && p == l.pred[s] && p < |l.dist| && 0 < l.dist[s] == l.dist[p] + 1
    ensures if p == src then l.dist[p] == 0 else OnTheWay(g, vertices, l, src, v, p)
  {
    StepBack(g, vertices, l, src, v, s);
    p := l.pred[s];
  }

  /** From a router that cannot be reached, no number of steps back leads to one that can. */
  lemma {:induction false} WalkBackStaysOut(g: Graph, pred: seq<int>, src: nat, v: nat, k: nat)
    requires Symmetric(g) && Linked(g, pred) && !Connected(g, src, v)
    ensures Back(pred, v, k) == -1 || (Back(pred, v, k) >= 0 && !Connected(g, src, Back(pred, v, k)))
    decreases k
  {
    if k > 0 && v < |pred| && pred[v] != -1 {
      var p: nat := pred[v];
      if Connected(g, src, p) {
        var d :| Reach(g, src, p, d);
        WalkGrows(g, src, p, v, d);
      }
      WalkBackStaysOut(g, pred, src, p, k - 1);
    }
  }

  /**
   * The walk back from another router comes to the source if and only if the source reaches it: on a map that is not
   * connected the loop of createTable does not find its way home, whatever predecessors other runs have left.
   */
  lemma WalkBackEnds(g: Graph, vertices: set<nat>, l: Labels, src: nat, v: nat)
    requires AllDone(g, vertices, l, src) && Symmetric(g) && |vertices| <= INFINITY && v in vertices && v != src
    ensures (exists k :: 0 <= k && Back(l.pred, v, k) == src) <==> Connected(g, src, v)
  {
    hide Labelled, Symmetric, Linked;
    if Connected(g, src, v) {
      AllDoneIsSized(g, vertices, l, src);
      DoneIsShortest(g, vertices, l, src, v);
      NoStepIsHome(g, v, v);
      NoStepIsHome(g, src, v);
      WalkBackArrives(g, vertices, l, src, v, v);
    } else {
      AllDoneIsSized(g, vertices, l, src);
      forall k | 0 <= k ensures Back(l.pred, v, k) != src {
        WalkBackStaysOut(g, l.pred, src, v, k);
        HopsZero(g, src);
      }
    }
  }

  lemma AllDoneIsSized(g: Graph, vertices: set<nat>, l: Labels, src: nat)
    requires AllDone(g, vertices, l, src)
    ensures Sized(g, l) && Linked(g, l.pred) && forall v :: v in vertices ==> v < |g| && 0 <= l.dist[v]
  {}
}
