/**
 * The main program of hupsim.pl: the map, the routing tables, and the loop that takes packets in and drains the
 * queues.
 */
module Simulator {
  import opened Common
  import opened Topology
  import opened Dijkstra
  import opened Traffic
  import opened Flows
  import opened Router

  /** The link of each route, by its two ends. */
  type Links = map<(nat, nat), Link>

  /** Every router has the same address table, every queue is empty and has its link. */
  ghost predicate Quiet(routers: seq<NSRouter?>, nodes: Nodes, links: Links)
    reads (set r: NSRouter | r in routers)`routes, (set r: NSRouter | r in routers)`bytesSent,
      (set r: NSRouter, v: nat | r in routers && v < |r.routes| :: r.routes[v])
  {
    forall u :: u in Vertices(routers) ==> QuietRouter(routers[u], nodes, links, u)
  }

  ghost predicate QuietRouter(r: NSRouter, nodes: Nodes, links: Links, u: nat)
    reads r`routes, r`bytesSent, r.routes
  {
    && r.nodes == nodes && r.bytesSent == 0
    && forall v :: 0 <= v < |r.routes| && r.routes[v] != null ==>
      (u, v) in links && QuietQueue(r.routes[v], links[(u, v)])
  }

  ghost predicate QuietQueue(q: NSQueue, link: Link)
    reads q
  {
    Link(q.rate, q.latency, q.max) == link && q.queue == [] && q.size == 0 && q.dropped == 0
  }

  /** The link that a line asks for: its rate in bytes, and a limit of 10 packets if it names none. */
  function LinkOf(line: MapLine): Link {
    Link(line.rate / 8, line.latency, if line.queuemax == 0 then QUEUEMAX else line.queuemax)
  }

  function AddLinks(links: Links, line: MapLine): Links {
    links[(line.to, line.from) := LinkOf(line)][(line.from, line.to) := LinkOf(line)]
  }

  /** The links of the map: a later line replaces an earlier one between the same routers. */
  function LinksOf(lines: seq<MapLine>): Links {
    if lines == [] then map[] else AddLinks(LinksOf(lines[..|lines| - 1]), lines[|lines| - 1])
  }

  lemma LastJoinsNow(lines: seq<MapLine>, u: nat, v: nat)
    requires lines != [] && Joins(lines[|lines| - 1], u, v)
    ensures LastJoins(lines, |lines| - 1, u, v)
  {}

  lemma LastJoinsStill(lines: seq<MapLine>, i: int, u: nat, v: nat)
    requires lines != [] && LastJoins(lines[..|lines| - 1], i, u, v) && !Joins(lines[|lines| - 1], u, v)
    ensures LastJoins(lines, i, u, v) && lines[..|lines| - 1][i] == lines[i]
  {}

  lemma AddLinksAt(links: Links, line: MapLine, u: nat, v: nat)
    ensures (u, v) in AddLinks(links, line) <==> (u, v) in links || Joins(line, u, v)
    ensures Joins(line, u, v) ==> AddLinks(links, line)[(u, v)] == LinkOf(line)
    ensures !Joins(line, u, v) && (u, v) in links ==> AddLinks(links, line)[(u, v)] == links[(u, v)]
  {}

  predicate LastJoins(lines: seq<MapLine>, i: int, u: nat, v: nat) {
    0 <= i < |lines| && Joins(lines[i], u, v) && forall j :: i < j < |lines| ==> !Joins(lines[j], u, v)
  }

  /** The link between two routers is that of the last line that joins them. */
  lemma {:induction false} LinkIsLastLine(lines: seq<MapLine>, u: nat, v: nat)
    ensures (u, v) in LinksOf(lines) <==> exists i :: 0 <= i < |lines| && Joins(lines[i], u, v)
    ensures (u, v) in LinksOf(lines) ==>
      exists i :: LastJoins(lines, i, u, v) && LinksOf(lines)[(u, v)] == LinkOf(lines[i])
    decreases |lines|
  {
    hide LinkOf, AddLinks, Joins;
    if lines != [] {
      var init, last := lines[..|lines| - 1], lines[|lines| - 1];
      LinkIsLastLine(init, u, v);
      AddLinksAt(LinksOf(init), last, u, v);
      assert forall i :: 0 <= i < |init| ==> init[i] == lines[i];
      if Joins(last, u, v) {
        LastJoinsNow(lines, u, v);
      } else if (u, v) in LinksOf(init) {
        var i :| LastJoins(init, i, u, v) && LinksOf(init)[(u, v)] == LinkOf(init[i]);
        LastJoinsStill(lines, i, u, v);
        assert LinksOf(lines)[(u, v)] == LinkOf(lines[i]);
      }
    }
  }

  /** One router made if the map has not named it before. */
  method EnsureRouter(routers: seq<NSRouter?>, n: nat, nodes: Nodes, ghost links: Links, ghost g: Graph)
    returns (out: seq<NSRouter?>)
    requires Wired(routers, g) && Quiet(routers, nodes, links)
    ensures Wired(out, Grow(g, n)) && Quiet(out, nodes, links)
    ensures Vertices(out) == Vertices(routers) + {n}
    ensures forall u :: u in Vertices(routers) ==> out[u] == routers[u]
    ensures forall u :: u in Vertices(out) ==> out[u] in routers || (fresh(out[u]) && out[u].predecessor == null)
  {
    hide RoutesOf, QuietRouter;
    out := routers;
    if n >= |routers| || routers[n] == null {
      var r := new NSRouter(n, nodes);
      out := Put(routers, n, r, null);
      assert Wired(routers, g) && Quiet(routers, nodes, links);
      NewRouterIsWired(routers, out, n, g);
      NewRouterIsQuiet(routers, out, n, nodes, links);
    }
  }

  lemma NewRouterIsWired(routers: seq<NSRouter?>, out: seq<NSRouter?>, n: nat, g: Graph)
    requires Wired(routers, g) && (n >= |routers| || routers[n] == null)
    requires n < |out| && out[n] != null && out[n].id == n && out[n].routes == []
    requires out == Put(routers, n, out[n], null)
    ensures Wired(out, Grow(g, n)) && Vertices(out) == Vertices(routers) + {n}
  {
    forall u | u in Vertices(routers) ensures RoutesOf(out, Grow(g, n), u) {
      assert RoutesOf(routers, g, u);
    }
  }

  lemma NewRouterIsQuiet(routers: seq<NSRouter?>, out: seq<NSRouter?>, n: nat, nodes: Nodes, links: Links)
    requires Quiet(routers, nodes, links)
    requires n < |out| && out[n] != null && out[n].routes == [] && out[n].nodes == nodes && out[n].bytesSent == 0
    requires out == Put(routers, n, out[n], null)
    ensures Quiet(out, nodes, links)
  {
    hide QuietQueue;
    forall u | u in Vertices(out) ensures QuietRouter(out[u], nodes, links, u) {
      assert u != n ==> u in Vertices(routers) && out[u] == routers[u];
    }
  }

  /** One route added to router u of the map. */
  method Connect(routers: seq<NSRouter?>, u: nat, v: nat, line: MapLine, nodes: Nodes, ghost links: Links,
                 ghost g: Graph)
    requires Wired(routers, g) && Quiet(routers, nodes, links) && u in Vertices(routers) && v in Vertices(routers)
    modifies (set r: NSRouter | r in routers)`routes
    ensures Wired(routers, PutEdge(g, u, v)) && Quiet(routers, nodes, links[(u, v) := LinkOf(line)])
  {
    hide RoutesOf, QuietRouter, PutEdge;
    AddQueue(routers, u, v, line, nodes, links, g);
    forall w | w in Vertices(routers) && w != u
      ensures RoutesOf(routers, PutEdge(g, u, v), w) && QuietRouter(routers[w], nodes, links[(u, v) := LinkOf(line)], w)
    {
      OtherRouterStays(routers, u, v, w, nodes, links, LinkOf(line), g);
    }
    RowsBeyond(g, u, v);
  }

  /** The route itself: router u gets it, with an empty queue. */
  method AddQueue(routers: seq<NSRouter?>, u: nat, v: nat, line: MapLine, nodes: Nodes, ghost links: Links,
                  ghost g: Graph)
    requires u in Vertices(routers) && v in Vertices(routers) && |g| == |routers| && routers[v].id == v
    requires RoutesOf(routers, g, u) && QuietRouter(routers[u], nodes, links, u)
    modifies (routers[u] as NSRouter)`routes
    ensures RoutesOf(routers, PutEdge(g, u, v), u) && QuietRouter(routers[u], nodes, links[(u, v) := LinkOf(line)], u)
  {
    hide Edge;
    routers[u].AddRoute(routers[v], line.rate, line.latency, line.queuemax);
  }

  lemma OtherRouterStays(routers: seq<NSRouter?>, u: nat, v: nat, w: nat, nodes: Nodes, links: Links, link: Link,
                         g: Graph)
    requires u in Vertices(routers) && w in Vertices(routers) && w != u && |g| == |routers|
    requires RoutesOf(routers, g, w) && QuietRouter(routers[w], nodes, links, w)
    ensures RoutesOf(routers, PutEdge(g, u, v), w) && QuietRouter(routers[w], nodes, links[(u, v) := link], w)
  {}

  lemma RowsBeyond(g: Graph, u: nat, v: nat)
    requires u < |g|
    ensures |PutEdge(g, u, v)| == |g| && forall w :: 0 <= w < |g| && w != u ==> PutEdge(g, u, v)[w] == g[w]
  {}

  method ReadLine(routers: seq<NSRouter?>, line: MapLine, nodes: Nodes, ghost links: Links, ghost g: Graph)
    returns (out: seq<NSRouter?>)
    requires Wired(routers, g) && Quiet(routers, nodes, links)
    modifies (set r: NSRouter | r in routers)`routes
    ensures Wired(out, AddLine(g, line)) && Quiet(out, nodes, AddLinks(links, line))
    ensures Vertices(out) == Vertices(routers) + {line.from, line.to}
    ensures forall u :: u in Vertices(out) ==> out[u] in routers || (fresh(out[u]) && out[u].predecessor == null)
  {
    hide Wired, Quiet, Grow, PutEdge;
    out := EnsureRouter(routers, line.to, nodes, links, g);
    out := EnsureRouter(out, line.from, nodes, links, Grow(g, line.to));
    ghost var h := Grow(Grow(g, line.to), line.from);
    Connect(out, line.to, line.from, line, nodes, links, h);
    ghost var half := links[(line.to, line.from) := LinkOf(line)];
    Connect(out, line.from, line.to, line, nodes, half, PutEdge(h, line.to, line.from));
  }

  /** The map file, line by line. */
  method ReadMap(lines: seq<MapLine>, nodes: Nodes) returns (routers: seq<NSRouter?>)
    ensures Wired(routers, GraphOf(lines)) && Quiet(routers, nodes, LinksOf(lines))
    ensures Vertices(routers) == Ends(lines)
    ensures forall u :: u in Vertices(routers) ==> fresh(routers[u]) && routers[u].predecessor == null
  {
    hide Wired, Quiet, AddLine, AddLinks, GraphOf, LinksOf, Ends;
    routers := [];
    NoLines(routers, nodes);
    assert lines[..0] == [];
    for n := 0 to |lines|
      invariant Wired(routers, GraphOf(lines[..n])) && Quiet(routers, nodes, LinksOf(lines[..n]))
      invariant Vertices(routers) == Ends(lines[..n])
      invariant forall u :: u in Vertices(routers) ==> fresh(routers[u]) && routers[u].predecessor == null
    {
      OneMoreLine(lines, n);
      routers := ReadLine(routers, lines[n], nodes, LinksOf(lines[..n]), GraphOf(lines[..n]));
    }
    assert lines[..|lines|] == lines;
  }

  lemma NoLines(routers: seq<NSRouter?>, nodes: Nodes)
    requires routers == []
    ensures Wired(routers, GraphOf([])) && Quiet(routers, nodes, LinksOf([])) && Vertices(routers) == Ends([])
  {}

  lemma OneMoreLine(lines: seq<MapLine>, n: nat)
    requires n < |lines|
    ensures GraphOf(lines[..n + 1]) == AddLine(GraphOf(lines[..n]), lines[n])
    ensures LinksOf(lines[..n + 1]) == AddLinks(LinksOf(lines[..n]), lines[n])
    ensures Ends(lines[..n + 1]) == Ends(lines[..n]) + {lines[n].from, lines[n].to}
  {
    hide AddLine, AddLinks;
    assert lines[..n + 1][..n] == lines[..n];
  }

  /** The router numbers that the lines mention. */
  function Ends(lines: seq<MapLine>): set<nat> {
    if lines == [] then {} else Ends(lines[..|lines| - 1]) + {lines[|lines| - 1].from, lines[|lines| - 1].to}
  }

  lemma NoPredecessors(routers: seq<NSRouter?>, g: Graph) returns (pred: seq<int>)
    requires forall u :: u in Vertices(routers) ==> routers[u].predecessor == null
    ensures Traced(routers, g, pred)
  {
    pred := seq(|routers|, _ => -1);
  }

  /** The tables of all routers, each built on its own. */
  method CreateTables(routers: seq<NSRouter?>, ghost g: Graph, ghost pred0: seq<int>)
    requires Wired(routers, g) && |Vertices(routers)| <= INFINITY && Traced(routers, g, pred0)
    requires forall u, v :: u in Vertices(routers) && v in Vertices(routers) ==> Connected(g, u, v)
    modifies (set r: NSRouter | r in routers)`routingTable, (set r: NSRouter | r in routers)`done,
      (set r: NSRouter | r in routers)`distance, (set r: NSRouter | r in routers)`predecessor
    ensures Wired(routers, g) && forall u :: u in Vertices(routers) ==> TableRight(routers, g, routers[u])
  {
    hide TableRight, RoutesOf, Traced;
    ghost var pred := pred0;
    for i := 0 to |routers|
      invariant Wired(routers, g) && Traced(routers, g, pred)
      invariant forall u :: u in Vertices(routers) && u < i ==> TableRight(routers, g, routers[u])
    {
      if routers[i] != null {
        pred := routers[i].CreateTable(routers, g, pred);
      }
    }
  }

  /** The next hops that the routers' own tables give. */
  ghost function TablesOf(routers: seq<NSRouter?>): Tables
    reads (set r: NSRouter | r in routers)`routingTable
  {
    map u, v | u in Vertices(routers) && v in routers[u].routingTable ::
      (u, v) := routers[u].routingTable[v].routeRef.id
  }

  /** Tables that are right one by one lead every packet the shortest way, wherever it starts. */
  lemma RightTablesNeverLoop(routers: seq<NSRouter?>, g: Graph, u: nat, v: nat)
    requires Wired(routers, g) && u in Vertices(routers) && v in Vertices(routers)
    requires forall w :: w in Vertices(routers) ==> TableRight(routers, g, routers[w])
    ensures Connected(g, u, v) && Closer(g, TablesOf(routers), Vertices(routers))
    ensures forall k: nat :: Position(g, TablesOf(routers), Vertices(routers), u, v, k) == v <==> k >= Hops(g, u, v)
    ensures forall i, j :: 0 <= i < j <= Hops(g, u, v) ==>
      Position(g, TablesOf(routers), Vertices(routers), u, v, i)
      != Position(g, TablesOf(routers), Vertices(routers), u, v, j)
  {
    hide Wired, TableRight, TablesOf, Connected, Edge;
    var t, vertices := TablesOf(routers), Vertices(routers);
    forall a, b | a in vertices && b in vertices && a != b
      ensures Connected(g, a, b) && (a, b) in t && t[(a, b)] in vertices && Edge(g, a, t[(a, b)])
      ensures Connected(g, t[(a, b)], b) && Hops(g, t[(a, b)], b) == Hops(g, a, b) - 1
    {
      WiredNumbers(routers, g, a);
      assert TableRight(routers, g, routers[a]);
      RightEntryIsCloser(routers, g, a, b);
    }
    ForwardingNeverLoops(g, t, vertices, u, v);
  }

  lemma WiredNumbers(routers: seq<NSRouter?>, g: Graph, a: nat)
    requires Wired(routers, g) && a in Vertices(routers)
    ensures a < |routers| && routers[a] != null && routers[a].id == a
  {
    hide RoutesOf;
  }

  lemma RightEntryIsCloser(routers: seq<NSRouter?>, g: Graph, a: nat, b: nat)
    requires a in Vertices(routers) && b in Vertices(routers) && a != b && routers[a].id == a
    requires TableRight(routers, g, routers[a])
    ensures Connected(g, a, b) && (a, b) in TablesOf(routers)
    ensures var h := TablesOf(routers)[(a, b)];
      && h in Vertices(routers) && Edge(g, a, h) && Connected(g, h, b) && Hops(g, h, b) == Hops(g, a, b) - 1
  {
    hide Connected, Edge;
    assert EntryRight(routers, g, a, b, routers[a].routingTable[b]);
  }

  // The queues of the network, listed

  /** c and qs list queues of the routers, each at its own place, up to place (u, v). */
  ghost predicate ListedBelow(routers: seq<NSRouter?>, qs: seq<NSQueue>, c: Config, u: nat, v: nat)
    reads (set r: NSRouter | r in routers)`routes
  {
    && |qs| == |c.from| == |c.to| == |c.link|
    && (forall k :: 0 <= k < |qs| ==> Placed(routers, qs, c, k) && Before(c.from[k], c.to[k], u, v))
    && (forall j, k :: 0 <= j < k < |qs| ==> Before(c.from[j], c.to[j], c.from[k], c.to[k]))
    && (forall a: nat, b: nat ::
         a in Vertices(routers) && b < |routers[a].routes| && routers[a].routes[b] != null && Before(a, b, u, v) ==>
         Listed(qs, c, a, b, routers[a].routes[b]))
  }

  predicate Before(a: nat, b: nat, u: nat, v: nat) { a < u || (a == u && b < v) }

  ghost predicate Placed(routers: seq<NSRouter?>, qs: seq<NSQueue>, c: Config, k: nat)
    requires k < |qs| == |c.from| == |c.to| == |c.link|
    reads (set r: NSRouter | r in routers)`routes
  {
    && c.from[k] in Vertices(routers) && c.to[k] < |routers[c.from[k]].routes|
    && routers[c.from[k]].routes[c.to[k]] == qs[k]
    && c.link[k] == Link(qs[k].rate, qs[k].latency, qs[k].max)
  }

  lemma ListNext(routers: seq<NSRouter?>, qs: seq<NSQueue>, c: Config, u: nat, v: nat)
    returns (qs': seq<NSQueue>, c': Config)
    requires ListedBelow(routers, qs, c, u, v) && u in Vertices(routers) && v < |routers[u].routes|
    ensures ListedBelow(routers, qs', c', u, v + 1)
    ensures c' == c.(from := c'.from, to := c'.to, link := c'.link)
  {
    hide Listed;
    qs', c' := qs, c;
    var q := routers[u].routes[v];
    if q != null {
      qs' := qs + [q];
      c' := c.(from := c.from + [u], to := c.to + [v], link := c.link + [Link(q.rate, q.latency, q.max)]);
      forall k | 0 <= k < |qs'| ensures Placed(routers, qs', c', k) && Before(c'.from[k], c'.to[k], u, v + 1) {
        assert k < |qs| ==> Placed(routers, qs, c, k);
      }
      forall a: nat, b: nat |
        a in Vertices(routers) && b < |routers[a].routes| && routers[a].routes[b] != null && Before(a, b, u, v + 1)
        ensures Listed(qs', c', a, b, routers[a].routes[b])
      {
        ListedWithOneMore(qs, c, q, u, v, qs', c', a, b, routers[a].routes[b]);
      }
    }
  }

  lemma ListedWithOneMore(qs: seq<NSQueue>, c: Config, q: NSQueue, u: nat, v: nat,
                          qs': seq<NSQueue>, c': Config, a: nat, b: nat, x: NSQueue)
    requires |qs| == |c.from| == |c.to| && qs' == qs + [q] && c'.from == c.from + [u] && c'.to == c.to + [v]
    requires if a == u && b == v then x == q else Listed(qs, c, a, b, x)
    ensures Listed(qs', c', a, b, x)
  {
    if a == u && b == v {
      assert qs'[|qs|] == q;
    } else {
      var k :| 0 <= k < |qs| && k < |c.from| && qs[k] == x && c.from[k] == a && c.to[k] == b;
      assert qs'[k] == x && c'.from[k] == a && c'.to[k] == b;
    }
  }

  /** All queues of the network can be listed. */
  lemma ListQueues(routers: seq<NSRouter?>, g: Graph, nodes: Nodes) returns (qs: seq<NSQueue>, c: Config)
    ensures ListedBelow(routers, qs, c, |routers|, 0)
    ensures c.g == g && c.vertices == Vertices(routers) && c.nodes == nodes
  {
    qs, c := [], Config(g, Vertices(routers), nodes, [], [], []);
    var u := 0;
    while u < |routers|
      invariant 0 <= u <= |routers| && ListedBelow(routers, qs, c, u, 0)
      invariant c.g == g && c.vertices == Vertices(routers) && c.nodes == nodes
    {
      if routers[u] != null {
        var v := 0;
        while v < |routers[u].routes|
          invariant 0 <= v <= |routers[u].routes| && ListedBelow(routers, qs, c, u, v)
          invariant c.g == g && c.vertices == Vertices(routers) && c.nodes == nodes
        {
          qs, c := ListNext(routers, qs, c, u, v);
          v := v + 1;
        }
      }
      u := u + 1;
    }
  }

  /** The load of a network that has seen no packet. */
  function EmptyLoad(n: nat): (l: Load)
    ensures |l.queued| == |l.left| == |l.dropped| == n && l.delivered == []
    ensures forall k :: 0 <= k < n ==> l.queued[k] == [] && l.left[k] == [] && l.dropped[k] == []
  {
    Load(seq(n, _ => []), seq(n, _ => []), seq(n, _ => []), [])
  }

  lemma {:induction false} NothingQueued(queued: seq<seq<Item>>)
    requires forall k :: 0 <= k < |queued| ==> queued[k] == []
    ensures Queued(queued) == multiset{}
  {
    if queued != [] {
      NothingQueued(queued[1..]);
    }
  }

  lemma {:induction false} NothingDropped(dropped: seq<seq<Packet>>)
    requires forall k :: 0 <= k < |dropped| ==> dropped[k] == []
    ensures Dropped(dropped) == multiset{}
  {
    if dropped != [] {
      NothingDropped(dropped[1..]);
    }
  }

  lemma EmptyLoadIsEmpty(n: nat)
    ensures Accounted(EmptyLoad(n)) == multiset{}
  {
    NothingQueued(EmptyLoad(n).queued);
    NothingDropped(EmptyLoad(n).dropped);
  }

  /** What the listing knows of the queue at position k of a network that has seen no packet. */
  ghost predicate ReadyQueue(routers: seq<NSRouter?>, q: NSQueue, c: Config, k: nat, links: Links)
    requires |c.from| == |c.to| == |c.link|
    reads q, (set r: NSRouter | r in routers)`routes
  {
    && k < |c.from| && c.from[k] in Vertices(routers) && c.to[k] in Vertices(routers)
    && q.routeRef == routers[c.to[k]]
    && c.to[k] < |routers[c.from[k]].routes| && routers[c.from[k]].routes[c.to[k]] == q
    && (c.from[k], c.to[k]) in links && c.link[k] == links[(c.from[k], c.to[k])] && QuietQueue(q, c.link[k])
  }

  lemma ListedIsReady(routers: seq<NSRouter?>, g: Graph, nodes: Nodes, links: Links, qs: seq<NSQueue>, c: Config,
                      k: nat)
    requires Wired(routers, g) && Quiet(routers, nodes, links) && k < |qs| == |c.from| == |c.to| == |c.link|
    requires Placed(routers, qs, c, k)
    ensures ReadyQueue(routers, qs[k], c, k, links)
  {
    assert RoutesOf(routers, g, c.from[k]);
    assert QuietRouter(routers[c.from[k]], nodes, links, c.from[k]);
  }

  lemma ListedOnce(routers: seq<NSRouter?>, qs: seq<NSQueue>, c: Config, u: nat, v: nat)
    requires ListedBelow(routers, qs, c, u, v)
    requires forall k :: 0 <= k < |qs| ==> c.from[k] in Vertices(routers)
    requires Numbered(routers)
    requires forall k :: 0 <= k < |qs| ==> qs[k].owner == routers[c.from[k]] && qs[k].routeRef.id == c.to[k]
    ensures forall j, k :: 0 <= j < k < |qs| ==> qs[j] != qs[k]
  {
    hide Placed, Listed;
    forall j, k | 0 <= j < k < |qs| ensures qs[j] != qs[k] {
      assert Before(c.from[j], c.to[j], c.from[k], c.to[k]);
    }
  }

  lemma QueuesAreListed(routers: seq<NSRouter?>, g: Graph, links: Links, qs: seq<NSQueue>, c: Config)
    requires Wired(routers, g) && Sound(c) && c.vertices == Vertices(routers)
    requires ListedBelow(routers, qs, c, |routers|, 0)
    requires forall k :: 0 <= k < |qs| ==> ReadyQueue(routers, qs[k], c, k, links)
    ensures QueuesListed(routers, qs, c)
  {
    hide Listed;
    forall k | 0 <= k < |qs| ensures qs[k].owner == routers[c.from[k]] && qs[k].routeRef.id == c.to[k] {
      assert ReadyQueue(routers, qs[k], c, k, links) && RoutesOf(routers, g, c.from[k]);
    }
    ListedOnce(routers, qs, c, |routers|, 0);
    forall k | 0 <= k < |qs| ensures InPlace(routers, qs[k], c, k) {
      assert ReadyQueue(routers, qs[k], c, k, links);
    }
  }

  lemma NothingIsCarried(routers: seq<NSRouter?>, g: Graph, nodes: Nodes, links: Links, qs: seq<NSQueue>, c: Config)
    requires Wired(routers, g) && Quiet(routers, nodes, links)
    requires |qs| == |c.from| == |c.to| == |c.link| && Sound(c)
    requires forall k :: 0 <= k < |qs| ==> ReadyQueue(routers, qs[k], c, k, links)
    ensures Carries(routers, qs, EmptyLoad(|qs|)) && Orderly(c, EmptyLoad(|qs|))
  {
    hide Wired, Sound;
    forall k | 0 <= k < |qs| ensures qs[k].queue == [] && qs[k].dropped == 0 && qs[k].size == 0 {
      assert ReadyQueue(routers, qs[k], c, k, links);
    }
    forall u | u in Vertices(routers) ensures routers[u].bytesSent == 0 {
      assert QuietRouter(routers[u], nodes, links, u);
    }
  }

  /** Routers read from a map file, with their tables built, make up a network in working order. */
  lemma NetworkIsReady(routers: seq<NSRouter?>, g: Graph, nodes: Nodes, links: Links)
    returns (qs: seq<NSQueue>, c: Config)
    requires Wired(routers, g) && Quiet(routers, nodes, links)
    requires forall u :: u in Vertices(routers) ==> TableRight(routers, g, routers[u])
    requires forall u, v :: u in Vertices(routers) && v in Vertices(routers) ==> Connected(g, u, v)
    requires forall k :: k in nodes ==> nodes[k] in Vertices(routers)
    requires forall e :: e in links ==> links[e].rate > 0
    ensures Plugged(routers, qs, c) && c.g == g && c.vertices == Vertices(routers) && c.nodes == nodes
    ensures forall k :: 0 <= k < |c.from| ==> (c.from[k], c.to[k]) in links && c.link[k] == links[(c.from[k], c.to[k])]
    ensures Carries(routers, qs, EmptyLoad(|qs|)) && Orderly(c, EmptyLoad(|qs|))
    ensures Accounted(EmptyLoad(|qs|)) == multiset{}
  {
    hide TableRight, Edge, Connected, RoutesOf, QuietQueue, Carries, Orderly, Accounted, QueuesListed, Listed;
    qs, c := ListQueues(routers, g, nodes);
    forall k | 0 <= k < |qs| ensures ReadyQueue(routers, qs[k], c, k, links) {
      ListedIsReady(routers, g, nodes, links, qs, c, k);
    }
    forall k | 0 <= k < |qs| ensures c.link[k].rate > 0 && c.from[k] in c.vertices && c.to[k] in c.vertices {
      assert ReadyQueue(routers, qs[k], c, k, links);
    }
    assert Sound(c);
    QueuesAreListed(routers, g, links, qs, c);
    NothingIsCarried(routers, g, nodes, links, qs, c);
    EmptyLoadIsEmpty(|qs|);
    forall u | u in Vertices(routers) ensures routers[u].nodes == nodes {
      assert QuietRouter(routers[u], nodes, links, u);
    }
  }

  /** On a map all of whose routers one of them reaches, every router reaches every other. */
  lemma MapIsConnected(lines: seq<MapLine>, root: nat)
    requires forall v :: v in Ends(lines) ==> Connected(GraphOf(lines), root, v)
    ensures forall u, v :: u in Ends(lines) && v in Ends(lines) ==> Connected(GraphOf(lines), u, v)
  {
    hide Connected, GraphOf;
    GraphOfIsSymmetric(lines);
    forall u, v | u in Ends(lines) && v in Ends(lines) ensures Connected(GraphOf(lines), u, v) {
      OneReachesAll(GraphOf(lines), root, u, v);
    }
  }

  lemma {:induction false} LinksCanSend(lines: seq<MapLine>)
    requires forall i :: 0 <= i < |lines| ==> lines[i].rate >= 8
    ensures forall e :: e in LinksOf(lines) ==> LinksOf(lines)[e].rate > 0
    decreases |lines|
  {
    if lines != [] {
      LinksCanSend(lines[..|lines| - 1]);
    }
  }

  /** Start-up: from a map one of whose routers reaches all, a network in working order that has seen no packet. */
  method SetUp(lines: seq<MapLine>, nodes: Nodes, ghost root: nat)
    returns (routers: seq<NSRouter?>, ghost qs: seq<NSQueue>, ghost c: Config)
    requires forall i :: 0 <= i < |lines| ==> lines[i].rate >= 8
    requires |Ends(lines)| <= INFINITY
    requires forall v :: v in Ends(lines) ==> Connected(GraphOf(lines), root, v)
    requires forall k :: k in nodes ==> nodes[k] in Ends(lines)
    ensures Plugged(routers, qs, c) && c.g == GraphOf(lines) && c.vertices == Ends(lines) && c.nodes == nodes
    ensures forall k :: 0 <= k < |c.from| ==>
      (c.from[k], c.to[k]) in LinksOf(lines) && c.link[k] == LinksOf(lines)[(c.from[k], c.to[k])]
    ensures Carries(routers, qs, EmptyLoad(|qs|)) && Orderly(c, EmptyLoad(|qs|))
    ensures Accounted(EmptyLoad(|qs|)) == multiset{}
  {
    hide Wired, Quiet, TableRight, Plugged, Carries, Orderly, Accounted, Connected, LinksOf;
    MapIsConnected(lines, root);
    LinksCanSend(lines);
    routers := ReadMap(lines, nodes);
    ghost var pred := NoPredecessors(routers, GraphOf(lines));
    CreateTables(routers, GraphOf(lines), pred);
    qs, c := NetworkIsReady(routers, GraphOf(lines), nodes, LinksOf(lines));
  }

  // The main loop

  /**
   * Where the loop over runRouters stands: nothing is lost, and every queue that holds packets belongs to a router that
   * still waits to be run, or the sleeping time found so far is in time for its head.
   */
  ghost predicate Draining(c: Config, l0: Load, l: Load, rs: seq<NSRouter>, sleep: Option<real>,
                           reading: nat -> real, lo: nat, hi: nat)
  {
    && Accounted(l) == Accounted(l0) && Follows(l0, l) && |l.queued| == |c.from| && lo <= hi
    && Timed(c, l0, l, reading, lo, hi) && Flow(c, l0, l, multiset{})
    && (forall k :: 0 <= k < |c.from| && l.queued[k] != [] && !Lists(rs, c.from[k]) ==>
         InTime(sleep, l.queued[k][0].1, reading, lo, hi))
    && (sleep.Some? ==> sleep.value > 0.0 && Exact(l, sleep.value, reading, lo, hi))
  }

  lemma DrainingStarts(c: Config, l: Load, rs: seq<NSRouter>, reading: nat -> real, lo: nat)
    requires Orderly(c, l) && forall u :: u in c.vertices ==> Lists(rs, u)
    ensures Draining(c, l, l, rs, None, reading, lo, lo)
  {
    hide Accounted, Forwards, Timed, Flow;
    FlowSame(c, l);
    FollowsSame(l);
    TimedSame(c, l, reading, lo, lo);
  }

  /** A queue of another router that holds packets is still taken care of after router u was run. */
  lemma OtherQueueWaits(c: Config, u: nat, l: Load, m: Load, rs: seq<NSRouter>, out: seq<NSRouter>, k: nat,
                        reading: nat -> real, lo: nat, hi: nat)
    requires rs != [] && rs[0].id == u && Ran(c, u, l, m, rs[1..], out, reading, lo, hi)
    requires k < |c.from| && c.from[k] != u
    ensures !Lists(out, c.from[k]) ==> !Lists(rs, c.from[k]) && m.queued[k] == l.queued[k]
  {
    hide Accounted, Work, Follows, InOrder, Timed, Flow;
    if Lists(rs, c.from[k]) {
      var i :| 0 <= i < |rs| && rs[i].id == c.from[k];
      assert rs[1..][i - 1] == rs[i];
      ListsMore(rs[1..], out, c.from[k]);
    }
  }

  /** What running the first router of the list does for the rest of the loop. */
  lemma DrainingGoesOn(c: Config, l0: Load, l: Load, m: Load, rs: seq<NSRouter>, out: seq<NSRouter>, u: nat,
                       sleep: Option<real>, wait: Option<real>, at: map<nat, nat>, reading: nat -> real,
                       lo: nat, read: nat, hi: nat)
    requires Draining(c, l0, l, rs, sleep, reading, lo, read) && rs != [] && rs[0].id == u
    requires Ran(c, u, l, m, rs[1..], out, reading, read, hi) && Fits(m, |m.queued|)
    requires Least(m, at, reading, wait) && (wait.Some? ==> wait.value > 0.0)
    requires forall k :: k in at <==> 0 <= k < |c.from| && c.from[k] == u
    requires read <= hi && forall k :: k in at ==> read <= at[k] < hi
    ensures Draining(c, l0, m, out, Shorter(sleep, wait), reading, lo, hi)
  {
    hide Accounted, Work, Follows, InOrder, Woken, Least, InTime, Exact, Lists, Fits, Timed, Flow;
    FlowGoesOn(c, l0, l, m, multiset{});
    FollowsJoins(l0, l, m);
    TimedJoins(c, l0, l, m, reading, lo, read, read, hi);
    RanSpends(c, u, l, m, rs[1..], out, reading, read, hi);
    LeastIsRight(m, at, reading, wait, read, hi);
    var next := Shorter(sleep, wait);
    forall k | 0 <= k < |c.from| && m.queued[k] != [] && !Lists(out, c.from[k])
      ensures InTime(next, m.queued[k][0].1, reading, lo, hi)
    {
      var due := m.queued[k][0].1;
      if c.from[k] == u {
        SomeInTime(wait, due, reading, read, hi);
        StillInTime(wait, due, reading, read, hi, next, lo, hi);
      } else {
        OtherQueueWaits(c, u, l, m, rs, out, k, reading, read, hi);
        SomeInTime(sleep, due, reading, lo, read);
        StillInTime(sleep, due, reading, lo, read, next, lo, hi);
      }
    }
    if next.Some? {
      if next == sleep {
        StillExact(l, m, next.value, reading, lo, read, lo, hi);
      } else {
        FollowsSame(m);
        StillExact(m, m, next.value, reading, read, hi, lo, hi);
      }
    }
  }

  lemma DrainingEnds(c: Config, l0: Load, l: Load, sleep: Option<real>, reading: nat -> real, lo: nat, hi: nat)
    requires Draining(c, l0, l, [], sleep, reading, lo, hi)
    ensures Accounted(l) == Accounted(l0) && Follows(l0, l) && SleepRight(l, sleep, reading, lo, hi)
    ensures Timed(c, l0, l, reading, lo, hi) && Flow(c, l0, l, multiset{})
  {
    hide Accounted, Follows, InTime, Exact, Timed, Flow;
  }

  /** The loop over runRouters: it ends, whatever the clock says, and finds how long nothing will be due. */
  method Drain(initial: seq<NSRouter>, clock: TimeOfDay,
               ghost vertexes: seq<NSRouter?>, ghost qs: seq<NSQueue>, ghost c: Config, ghost l0: Load)
    returns (sleepSeconds: Option<real>, ghost l: Load)
    requires Plugged(vertexes, qs, c) && Carries(vertexes, qs, l0) && Orderly(c, l0) && Known(vertexes, initial)
    requires forall u :: u in c.vertices ==> Lists(initial, u)
    modifies clock, (set r: NSRouter | r in vertexes)`bytesSent, qs
    ensures Carries(vertexes, qs, l) && Orderly(c, l)
    ensures Accounted(l) == Accounted(l0) && Follows(l0, l)
    ensures old(clock.readings) <= clock.readings
    ensures SleepRight(l, sleepSeconds, clock.reading, old(clock.readings), clock.readings)
    ensures Timed(c, l0, l, clock.reading, old(clock.readings), clock.readings)
    ensures Flow(c, l0, l, multiset{})
  {
    hide Carries, Plugged, Orderly, Ran, Least, Draining, SleepRight, Accounted, Follows, Work, Lists, Timed, Flow;
    l := l0;
    sleepSeconds := None;
    var runRouters := initial;
    ghost var lo := clock.readings;
    DrainingStarts(c, l, runRouters, clock.reading, lo);
    OrderlyShape(c, l);
    while runRouters != []
      invariant Plugged(vertexes, qs, c) && Carries(vertexes, qs, l) && Orderly(c, l) && Known(vertexes, runRouters)
      invariant |l.queued| <= |c.from| && lo <= clock.readings
      invariant Draining(c, l0, l, runRouters, sleepSeconds, clock.reading, lo, clock.readings)
      decreases Work(c, l.queued, 0), |runRouters|
    {
      ghost var before, list, read := l, runRouters, clock.readings;
      var router := runRouters[0];
      PluggedVertices(vertexes, qs, c);
      var wait;
      ghost var at;
      wait, runRouters, l, at := router.Run(clock, runRouters[1..], vertexes, qs, c, l);
      OrderlyShape(c, l);
      RanSpends(c, router.id, before, l, list[1..], runRouters, clock.reading, read, clock.readings);
      DrainingGoesOn(c, l0, before, l, list, runRouters, router.id, sleepSeconds, wait, at, clock.reading,
                     lo, read, clock.readings);
      if sleepSeconds.Some? {
        if wait.Some? && wait.value < sleepSeconds.value {
          sleepSeconds := wait;
        }
      } else {
        sleepSeconds := wait;
      }
    }
    DrainingEnds(c, l0, l, sleepSeconds, clock.reading, lo, clock.readings);
  }

  lemma RanSpends(c: Config, u: nat, l: Load, m: Load, rs: seq<NSRouter>, out: seq<NSRouter>,
                  reading: nat -> real, lo: nat, hi: nat)
    requires Ran(c, u, l, m, rs, out, reading, lo, hi)
    ensures |l.queued| == |m.queued| == |c.from|
    ensures Work(c, m.queued, 0) < Work(c, l.queued, 0) || (m == l && out == rs)
  {}

  /** One turn of the main loop: a packet may have come in at a router; then everything due is moved on. */
  method Turn(input: Option<(nat, Packet)>, clock: TimeOfDay,
              routers: seq<NSRouter?>, ghost qs: seq<NSQueue>, ghost c: Config, ghost l0: Load)
    returns (sleepSeconds: Option<real>, ghost l: Load)
    requires Plugged(routers, qs, c) && Carries(routers, qs, l0) && Orderly(c, l0)
    modifies clock, (set r: NSRouter | r in routers)`bytesSent, qs
    ensures Carries(routers, qs, l) && Orderly(c, l)
    ensures Accounted(l) == Accounted(l0) + Entering(c, input) && Follows(l0, l)
    ensures old(clock.readings) <= clock.readings
    ensures SleepRight(l, sleepSeconds, clock.reading, old(clock.readings), clock.readings)
    ensures Timed(c, l0, l, clock.reading, old(clock.readings), clock.readings)
    ensures Flow(c, l0, l, Entry(c, input))
  {
    hide Carries, Plugged, Orderly, Accounted, Follows, SleepRight, Lists, Timed, Flow, Entry;
    PluggedVertices(routers, qs, c);
    var runRouters;
    runRouters, l := TakeIn(input, clock, routers, qs, c, l0);
    ghost var mid, read := l, clock.readings;
    runRouters := ListAll(routers, runRouters);
    sleepSeconds, l := Drain(runRouters, clock, routers, qs, c, l);
    FollowsJoins(l0, mid, l);
    FlowGoesOn(c, l0, mid, l, Entry(c, input));
    TimedJoins(c, l0, mid, l, clock.reading, old(clock.readings), read, read, clock.readings);
    OrderlyShape(c, l);
    SleepRightWidens(l, sleepSeconds, clock.reading, read, clock.readings, old(clock.readings));
  }

  /** The part of a turn that hands the packet that has come in to its router. */
  method TakeIn(input: Option<(nat, Packet)>, clock: TimeOfDay,
                routers: seq<NSRouter?>, ghost qs: seq<NSQueue>, ghost c: Config, ghost l0: Load)
    returns (runRouters: seq<NSRouter>, ghost l: Load)
    requires Plugged(routers, qs, c) && Carries(routers, qs, l0) && Orderly(c, l0)
    modifies clock, (set r: NSRouter | r in routers)`bytesSent, qs
    ensures Carries(routers, qs, l) && Orderly(c, l) && Known(routers, runRouters)
    ensures Accounted(l) == Accounted(l0) + Entering(c, input) && Follows(l0, l)
    ensures old(clock.readings) <= clock.readings
    ensures Timed(c, l0, l, clock.reading, old(clock.readings), clock.readings)
    ensures Flow(c, l0, l, Entry(c, input))
  {
    hide Carries, Plugged, Orderly, Accounted, Work, Received, Gains, Follows, Added, Timed, Flow;
    PluggedVertices(routers, qs, c);
    OrderlyShape(c, l0);
    FollowsSame(l0);
    FlowSame(c, l0);
    ghost var read := clock.readings;
    TimedSame(c, l0, clock.reading, read, read);
    l := l0;
    runRouters := [];
    if input.Some? {
      var nodeID := input.value.0;
      if nodeID < |routers| && routers[nodeID] != null {
        var now := clock.Now();
        runRouters, l := routers[nodeID].Recv(input.value.1, now, runRouters, routers, qs, c, l0);
        ReceivedEffect(c, l0, nodeID, input.value.1, now, l);
        GainsFollows(c, nodeID, l0, l);
        ReceivedFlows(c, l0, nodeID, input.value.1, now, l);
        ReceivedIsTimed(c, l0, nodeID, input.value.1, clock.reading, read, clock.readings, l);
      }
    }
  }

  /** The part of a turn that puts all routers on the list of those to be run. */
  method ListAll(routers: seq<NSRouter?>, initial: seq<NSRouter>) returns (runRouters: seq<NSRouter>)
    requires Numbered(routers) && Known(routers, initial)
    ensures Known(routers, runRouters) && initial <= runRouters
    ensures forall u :: u in Vertices(routers) ==> Lists(runRouters, u)
  {
    runRouters := initial;
    var i := 0;
    while i < |routers|
      invariant 0 <= i <= |routers|
      invariant Known(routers, runRouters) && initial <= runRouters
      invariant forall u :: u in Vertices(routers) && u < i ==> Lists(runRouters, u)
    {
      if routers[i] != null {
        ghost var before := runRouters;
        runRouters := runRouters + [routers[i]];
        assert runRouters[|before|].id == i;
        forall u | u in Vertices(routers) && u < i ensures Lists(runRouters, u) {
          ListsMore(before, runRouters, u);
        }
      }
      i := i + 1;
    }
  }

  /** The packet, if one comes in at a router of the map and has a destination. */
  function Entering(c: Config, input: Option<(nat, Packet)>): multiset<Packet> {
    if input.Some? && input.value.0 in c.vertices && DestOf(c.nodes, input.value.1).Some? then multiset{input.value.1}
    else multiset{}
  }

  /** The router and the packet, if the input brings one in that is not ignored. */
  function Entry(c: Config, input: Option<(nat, Packet)>): multiset<(nat, Packet)> {
    if input.Some? && input.value.0 in c.vertices && DestOf(c.nodes, input.value.1).Some? then multiset{input.value}
    else multiset{}
  }

  function Entries(c: Config, inputs: seq<Option<(nat, Packet)>>): multiset<(nat, Packet)> {
    if inputs == [] then multiset{}
    else Entries(c, inputs[..|inputs| - 1]) + Entry(c, inputs[|inputs| - 1])
  }

  lemma PluggedVertices(vertexes: seq<NSRouter?>, qs: seq<NSQueue>, c: Config)
    requires Plugged(vertexes, qs, c)
    ensures c.vertices == Vertices(vertexes) && Numbered(vertexes)
  {}

  /** The packets that the inputs bring in, each as often as it comes. */
  function AllEntering(c: Config, inputs: seq<Option<(nat, Packet)>>): multiset<Packet> {
    if inputs == [] then multiset{}
    else AllEntering(c, inputs[..|inputs| - 1]) + Entering(c, inputs[|inputs| - 1])
  }

  /**
   * Over any input, from empty queues on: the packets taken in are exactly those delivered, dropped or still queued,
   * each as often as it came, every queue is first in, first out over the whole run, and at every router what came over
   * its links or from outside is what it delivered, dropped, sent on or still queues.
   */
  method Simulate(inputs: seq<Option<(nat, Packet)>>, clock: TimeOfDay,
                  routers: seq<NSRouter?>, ghost qs: seq<NSQueue>, ghost c: Config, ghost l0: Load)
    returns (ghost l: Load)
    requires Plugged(routers, qs, c) && Carries(routers, qs, l0) && Orderly(c, l0) && Accounted(l0) == multiset{}
    modifies clock, (set r: NSRouter | r in routers)`bytesSent, qs
    ensures Carries(routers, qs, l) && Orderly(c, l) && Follows(l0, l)
    ensures Timed(c, l0, l, clock.reading, old(clock.readings), clock.readings)
    ensures Flow(c, l0, l, Entries(c, inputs))
    ensures AllEntering(c, inputs) == Delivered(l.delivered) + Dropped(l.dropped) + Queued(l.queued)
  {
    hide Carries, Plugged, Orderly, Follows, SleepRight, Entering, Timed, Flow, Entry;
    l := l0;
    OrderlyShape(c, l);
    FollowsSame(l);
    FlowSame(c, l);
    ghost var lo := clock.readings;
    TimedSame(c, l, clock.reading, lo, lo);
    for n := 0 to |inputs|
      invariant Plugged(routers, qs, c) && Carries(routers, qs, l) && Orderly(c, l) && Follows(l0, l)
      invariant Flow(c, l0, l, Entries(c, inputs[..n]))
      invariant Accounted(l) == AllEntering(c, inputs[..n])
      invariant lo <= clock.readings && Timed(c, l0, l, clock.reading, lo, clock.readings)
    {
      var sleepSeconds;
      ghost var before, read := l, clock.readings;
      assert inputs[..n + 1][..n] == inputs[..n];
      sleepSeconds, l := Turn(inputs[n], clock, routers, qs, c, l);
      FollowsJoins(l0, before, l);
      FlowJoins(c, l0, before, l, Entries(c, inputs[..n]), Entry(c, inputs[n]));
      TimedJoins(c, l0, before, l, clock.reading, lo, read, read, clock.readings);
    }
    assert inputs[..|inputs|] == inputs;
  }
}
