/** NSQueue and NSRouter of hupsim.pl, as objects updated in place. */
module Router {
  import opened Common
  import opened Topology
  import opened Dijkstra
  import opened Traffic
  import opened Flows

  /** gettimeofday, as seconds: any readings at all. */
  class TimeOfDay {
    const reading: nat -> real
    var readings: nat

    constructor (reading: nat -> real)
    {
      this.reading := reading;
      readings := 0;
    }

    method Now() returns (t: real)
      modifies this`readings
      ensures t == reading(old(readings)) && readings == old(readings) + 1
    {
      t := reading(readings);
      readings := readings + 1;
    }
  }

  class NSQueue {
    /** The router this queue belongs to; nothing reads it. */
    ghost const owner: NSRouter
    const routeRef: NSRouter
    const rate: nat
    const latency: real
    const max: nat
    var size: int
    var dropped: nat
    var queue: seq<Item>

    constructor (ghost owner: NSRouter, routeRef: NSRouter, ratebps: nat, latency: real, max: nat)
      ensures this.owner == owner && this.routeRef == routeRef && rate == ratebps / 8 && this.latency == latency
      ensures this.max == if max == 0 then QUEUEMAX else max
      ensures size == 0 && dropped == 0 && queue == []
    {
      this.owner, this.routeRef := owner, routeRef;
      rate := ratebps / 8;
      this.latency := latency;
      this.max := if max == 0 then QUEUEMAX else max;
      size, dropped, queue := 0, 0, [];
    }

    method EnQ(pkt: Packet, vtime: real)
      requires rate > 0 && size == Bytes(queue)
      modifies this`dropped, this`queue, this`size
      ensures |old(queue)| >= max ==> dropped == old(dropped) + 1 && queue == old(queue) && size == old(size)
      ensures |old(queue)| < max ==>
        && dropped == old(dropped) && size == old(size) + pkt.length
        && queue == old(queue) + [(pkt, TxTime(Link(rate, latency, max), old(queue), pkt, vtime))]
        && JoinsQueue(Link(rate, latency, max), old(queue), pkt, vtime, queue)
    {
      hide JoinsQueue, Bytes;
      TxTimeLaw(Link(rate, latency, max), queue, pkt, vtime);
      NoBytes(queue);
      if |queue| >= max {
        dropped := dropped + 1;
      } else {
        var packSize := pkt.length;
        var txTime := latency + packSize as real / rate as real + vtime;
        if |queue| > 0 {
          txTime := txTime + size as real / rate as real;
        }
        queue := queue + [(pkt, txTime)];
        size := size + packSize;
      }
    }
  }

  const QUEUEMAX: nat := 10

  class NSRouter {
    const id: nat
    const nodes: Nodes
    var routes: seq<NSQueue?>
    var routingTable: map<nat, NSQueue>
    var bytesSent: int

    // scratch fields of createTable, on every router
    var done: nat
    var distance: int
    var predecessor: NSRouter?

    constructor (id: nat, nodes: Nodes)
      ensures this.id == id && this.nodes == nodes && routes == [] && bytesSent == 0 && predecessor == null
    {
      this.id, this.nodes := id, nodes;
      routes, routingTable, bytesSent := [], map[], 0;
      done, distance, predecessor := 0, 0, null;
    }

    method AddRoute(routeRef: NSRouter, rate: nat, latency: real, max: nat)
      modifies this`routes
      ensures |routes| == (if routeRef.id < |old(routes)| then |old(routes)| else routeRef.id + 1)
      ensures forall v :: 0 <= v < |routes| && v != routeRef.id ==>
        routes[v] == if v < |old(routes)| then old(routes)[v] else null
      ensures var q := routes[routeRef.id];
        && q != null && fresh(q) && q.owner == this && q.routeRef == routeRef && q.rate == rate / 8
        && q.latency == latency && q.max == (if max == 0 then QUEUEMAX else max)
        && q.queue == [] && q.size == 0 && q.dropped == 0
    {
      var q := new NSQueue(this, routeRef, rate, latency, max);
      routes := Put(routes, routeRef.id, q, null);
    }

    /**
     * recv: a packet for nobody is dropped, one for this router delivered, any other queued towards its destination.
     */
    method Recv(pkt: Packet, vtime: real, runRouters: seq<NSRouter>,
                ghost vertexes: seq<NSRouter?>, ghost qs: seq<NSQueue>, ghost c: Config, ghost l0: Load)
      returns (runOut: seq<NSRouter>, ghost l: Load)
      requires Plugged(vertexes, qs, c) && id in c.vertices && vertexes[id] == this
      requires Carries(vertexes, qs, l0)
      modifies this`bytesSent, qs
      ensures Carries(vertexes, qs, l)
      ensures Received(c, l0, id, pkt, vtime, l) && Added(c, l0, id, pkt, vtime, l)
      ensures bytesSent == old(bytesSent) + if l.delivered != l0.delivered then pkt.length - 16 else 0
      ensures runOut
        == if l.delivered == l0.delivered && DestOf(c.nodes, pkt).Some? then runRouters + [this] else runRouters
    {
      hide RoutesOf, TableRight, Enqueued, Added, Carries;
      CarriesShape(vertexes, qs, l0);
      l := l0;
      runOut := runRouters;
      var dest := DestOf(nodes, pkt);
      if dest.None? {
        ReceivedAdds(c, l0, id, pkt, vtime, l);
        return;
      }
      if dest.value == id {
        l := Accept(pkt, vertexes, qs, l0);
      } else {
        l := Forward(pkt, dest.value, vtime, vertexes, qs, c, l0);
        runOut := runRouters + [this];
      }
      ReceivedAdds(c, l0, id, pkt, vtime, l);
    }

    method Accept(pkt: Packet, ghost vertexes: seq<NSRouter?>, ghost qs: seq<NSQueue>, ghost l0: Load)
      returns (ghost l: Load)
      requires Numbered(vertexes) && id in Vertices(vertexes) && vertexes[id] == this && Carries(vertexes, qs, l0)
      modifies this`bytesSent
      ensures Carries(vertexes, qs, l) && l == Deliver(l0, id, pkt)
      ensures bytesSent == old(bytesSent) + pkt.length - 16
    {
      bytesSent := bytesSent + pkt.length - 16;
      l := Deliver(l0, id, pkt);
      assert l.delivered[..|l0.delivered|] == l0.delivered;
    }

    method Forward(pkt: Packet, dest: nat, vtime: real,
                   ghost vertexes: seq<NSRouter?>, ghost qs: seq<NSQueue>, ghost c: Config, ghost l0: Load)
      returns (ghost l: Load)
      requires Plugged(vertexes, qs, c) && id in c.vertices && vertexes[id] == this && Carries(vertexes, qs, l0)
      requires dest != id && dest in c.vertices
      modifies qs
      ensures Carries(vertexes, qs, l) && l.delivered == l0.delivered
      ensures exists k: nat :: Enqueued(c, l0, id, dest, pkt, vtime, k, l)
    {
      hide Wired, TableRight, TxTime;
      ghost var k := TableIndex(vertexes, qs, c, id, dest);
      PluggedQueue(vertexes, qs, c, k);
      var queue := routingTable[dest];
      l := EnQ(l0, k, c.link[k].max, (pkt, TxTime(c.link[k], l0.queued[k], pkt, vtime)));
      assert Enqueued(c, l0, id, dest, pkt, vtime, k, l);
      EnQInPlace(vertexes, qs, c.link[k], l0, k, queue, pkt, vtime);
    }

    static method EnQInPlace(ghost vertexes: seq<NSRouter?>, ghost qs: seq<NSQueue>, ghost link: Link, ghost l0: Load,
                             ghost k: nat, queue: NSQueue, pkt: Packet, vtime: real)
      requires Carries(vertexes, qs, l0) && k < |qs| && qs[k] == queue && queue.rate > 0
      requires link == Link(queue.rate, queue.latency, queue.max)
      requires forall i, j :: 0 <= i < j < |qs| ==> qs[i] != qs[j]
      modifies queue
      ensures Carries(vertexes, qs, EnQ(l0, k, link.max, (pkt, TxTime(link, l0.queued[k], pkt, vtime))))
    {
      BytesAppend(l0.queued[k], (pkt, TxTime(link, l0.queued[k], pkt, vtime)));
      queue.EnQ(pkt, vtime);
    }

    /**
     * run: packets whose time has come leave this router's queues, in order, for the next router. The result is how
     * long to wait for the next departure, none if nothing is queued here. `at` tells for each queue of this router
     * which clock reading it was last compared with.
     */
    method Run(clock: TimeOfDay, runRouters: seq<NSRouter>,
               ghost vertexes: seq<NSRouter?>, ghost qs: seq<NSQueue>, ghost c: Config, ghost l0: Load)
      returns (wait: Option<real>, runOut: seq<NSRouter>, ghost l: Load, ghost at: map<nat, nat>)
      requires Plugged(vertexes, qs, c) && id in c.vertices && vertexes[id] == this
      requires Carries(vertexes, qs, l0) && Orderly(c, l0)
      requires Known(vertexes, runRouters)
      modifies clock, (set r: NSRouter | r in vertexes)`bytesSent, qs
      ensures Carries(vertexes, qs, l) && Orderly(c, l)
      ensures Known(vertexes, runOut)
      ensures Ran(c, id, l0, l, runRouters, runOut, clock.reading, old(clock.readings), clock.readings)
      ensures forall k :: k in at <==> 0 <= k < |c.from| && c.from[k] == id
      ensures old(clock.readings) <= clock.readings
      ensures forall k :: k in at ==> old(clock.readings) <= at[k] < clock.readings
      ensures Least(l, at, clock.reading, wait) && (wait.Some? ==> wait.value > 0.0)
    {
      hide Plugged, Carries, Orderly, Known, Ran, Least, OthersStay, Covers;
      l, at := l0, map[];
      runOut := runRouters;
      wait := None;
      ghost var lo := clock.readings;
      OrderlyShape(c, l);
      RanSame(c, id, l, runOut, clock.reading, lo, lo);
      StartLooking(c, id, l, clock.reading, clock.readings);
      var r := 0;
      while r < |routes|
        invariant 0 <= r <= |routes|
        invariant Plugged(vertexes, qs, c) && Carries(vertexes, qs, l) && Orderly(c, l)
        invariant Known(vertexes, runOut)
        invariant Ran(c, id, l0, l, runRouters, runOut, clock.reading, lo, clock.readings)
        invariant lo <= clock.readings && Covers(c, id, r, at, lo, clock.readings)
        invariant Least(l, at, clock.reading, wait) && (wait.Some? ==> wait.value > 0.0)
      {
        var route := routes[r];
        if route != null {
          ghost var k := RouteIndex(vertexes, qs, c, id, r);
          ghost var before, outBefore, read := l, runOut, clock.readings;
          var packTime;
          packTime, runOut, l := RunQueue(route, clock, runOut, vertexes, qs, c, l, k);
          RanJoins(c, id, l0, before, l, runRouters, outBefore, runOut, clock.reading, lo, read, read, clock.readings);
          LeastGrows(c, before, l, id, r, at, k, clock.reading, clock.readings - 1, wait, packTime, lo, read);
          CoversNext(vertexes, qs, c, id, r, k, at, lo, read, clock.readings);
          at := at[k := clock.readings - 1];
          if packTime.Some? {
            if wait.Some? {
              if wait.value > packTime.value {
                wait := packTime;
              }
            } else {
              wait := packTime;
            }
          }
        } else {
          CoversNoQueue(vertexes, qs, c, id, r, at, lo, clock.readings);
        }
        r := r + 1;
      }
      CoversAll(vertexes, qs, c, id, at, lo, clock.readings);
    }

    /** The part of run for one queue: what is due leaves, and the time until the next departure is computed. */
    method RunQueue(route: NSQueue, clock: TimeOfDay, runRouters: seq<NSRouter>,
                    ghost vertexes: seq<NSRouter?>, ghost qs: seq<NSQueue>, ghost c: Config, ghost l0: Load,
                    ghost k: nat)
      returns (packTime: Option<real>, runOut: seq<NSRouter>, ghost l: Load)
      requires Plugged(vertexes, qs, c) && id in c.vertices && vertexes[id] == this
      requires Carries(vertexes, qs, l0) && Orderly(c, l0)
      requires k < |qs| && k < |c.from| && qs[k] == route && c.from[k] == id
      requires Known(vertexes, runRouters)
      modifies clock, (set r: NSRouter | r in vertexes)`bytesSent, qs
      ensures Carries(vertexes, qs, l) && Orderly(c, l) && k < |l.queued|
      ensures Known(vertexes, runOut) && OthersStay(c, k, l0, l)
      ensures Ran(c, id, l0, l, runRouters, runOut, clock.reading, old(clock.readings), clock.readings)
      ensures old(clock.readings) < clock.readings
      ensures packTime == if l.queued[k] == [] then None
                          else Some(l.queued[k][0].1 - clock.reading(clock.readings - 1))
      ensures packTime.Some? ==> packTime.value > 0.0
    {
      hide Plugged, Carries, Orderly, OthersStay, Known, Ran, Work;
      l := l0;
      runOut := runRouters;
      OrderlyShape(c, l);
      OthersStaySame(c, k, l);
      ghost var lo := clock.readings;
      RanSame(c, id, l, runOut, clock.reading, lo, lo + 1);
      var now := clock.Now();
      QueueHolds(vertexes, qs, l, k);
      while |route.queue| > 0 && route.queue[0].1 <= now
        invariant Plugged(vertexes, qs, c) && Carries(vertexes, qs, l) && Orderly(c, l)
        invariant Known(vertexes, runOut) && OthersStay(c, k, l0, l)
        invariant Ran(c, id, l0, l, runRouters, runOut, clock.reading, lo, clock.readings)
        invariant k < |l.queued| && route.queue == l.queued[k]
        invariant |l.queued| <= |c.from|
        invariant old(clock.readings) < clock.readings && now == clock.reading(clock.readings - 1)
        decreases Work(c, l.queued, 0)
      {
        ghost var before, outBefore, read := l, runOut, clock.readings;
        now, runOut, l := Depart(route, clock, runOut, vertexes, qs, c, l, k, read - 1);
        QueueHolds(vertexes, qs, l, k);
        OthersStayJoins(c, k, l0, before, l);
        RanJoins(c, id, l0, before, l, runRouters, outBefore, runOut,
                 clock.reading, lo, read, read - 1, clock.readings);
      }
      packTime := if |route.queue| > 0 then Some(route.queue[0].1 - now) else None;
    }

    /** One packet leaves the queue and is received by the router at its other end. */
    method Depart(route: NSQueue, clock: TimeOfDay, runRouters: seq<NSRouter>,
                  ghost vertexes: seq<NSRouter?>, ghost qs: seq<NSQueue>, ghost c: Config, ghost l0: Load,
                  ghost k: nat, ghost due: nat)
      returns (now: real, runOut: seq<NSRouter>, ghost l: Load)
      requires Plugged(vertexes, qs, c) && id in c.vertices && vertexes[id] == this
      requires Carries(vertexes, qs, l0) && Orderly(c, l0)
      requires k < |qs| && k < |c.from| && qs[k] == route && c.from[k] == id && route.queue != []
      requires due < clock.readings && route.queue[0].1 <= clock.reading(due)
      requires Known(vertexes, runRouters)
      modifies clock, (set r: NSRouter | r in vertexes)`bytesSent, qs
      ensures Carries(vertexes, qs, l) && Orderly(c, l)
      ensures Known(vertexes, runOut) && OthersStay(c, k, l0, l)
      ensures Ran(c, id, l0, l, runRouters, runOut, clock.reading, due, clock.readings)
      ensures |l.queued| == |l0.queued| == |c.from| && Work(c, l.queued, 0) < Work(c, l0.queued, 0)
      ensures clock.readings == old(clock.readings) + 1 && now == clock.reading(clock.readings - 1)
    {
      hide *;
      HeadCanLeave(vertexes, qs, c, l0, k);
      var pkt := route.queue[0].0;
      now := LeaveQueue(route, clock, vertexes, qs, c, l0, k);
      runOut, l := route.routeRef.Arrive(pkt, now, runRouters, vertexes, qs, c, l0, k, clock.reading, due,
                                         clock.readings);
    }

    /** The second half of a hop: this router receives the packet that left queue k at the last reading. */
    method Arrive(pkt: Packet, now: real, runRouters: seq<NSRouter>,
                  ghost vertexes: seq<NSRouter?>, ghost qs: seq<NSQueue>, ghost c: Config, ghost l0: Load,
                  ghost k: nat, ghost reading: nat -> real, ghost due: nat, ghost hi: nat)
      returns (runOut: seq<NSRouter>, ghost l: Load)
      requires Plugged(vertexes, qs, c) && id in c.vertices && c.vertices == Vertices(vertexes) && vertexes[id] == this
      requires Orderly(c, l0) && k < |c.from| && l0.queued[k] != [] && pkt == l0.queued[k][0].0 && id == c.to[k]
      requires Carries(vertexes, qs, Shift(l0, k)) && Shift(l0, k).delivered == l0.delivered
      requires DestOf(c.nodes, pkt).Some? && Known(vertexes, runRouters)
      requires due < hi - 1 && l0.queued[k][0].1 <= reading(due) && now == reading(hi - 1)
      modifies this`bytesSent, qs
      ensures Carries(vertexes, qs, l) && Orderly(c, l)
      ensures Known(vertexes, runOut) && OthersStay(c, k, l0, l)
      ensures Ran(c, c.from[k], l0, l, runRouters, runOut, reading, due, hi)
      ensures |l.queued| == |l0.queued| == |c.from| && Work(c, l.queued, 0) < Work(c, l0.queued, 0)
    {
      hide Plugged, Carries, Orderly, Work, Ran, OthersStay, Received, Added, Known, Shift, DestOf;
      OrderlyShape(c, l0);
      OneMoreKnown(vertexes, runRouters, this);
      runOut, l := Recv(pkt, now, runRouters, vertexes, qs, c, Shift(l0, k));
      HopRuns(c, l0, k, l, runRouters, this, runOut, reading, due, hi);
    }

    static method LeaveQueue(route: NSQueue, clock: TimeOfDay, ghost vertexes: seq<NSRouter?>, ghost qs: seq<NSQueue>,
                             ghost c: Config, ghost l0: Load, ghost k: nat)
      returns (now: real)
      requires Plugged(vertexes, qs, c) && Carries(vertexes, qs, l0) && k < |qs| && qs[k] == route && route.queue != []
      modifies clock`readings, route`queue, route`size
      ensures Plugged(vertexes, qs, c) && Carries(vertexes, qs, Shift(l0, k))
      ensures clock.readings == old(clock.readings) + 1 && now == clock.reading(clock.readings - 1)
    {
      hide Plugged;
      PluggedQueue(vertexes, qs, c, k);
      ShiftInPlace(vertexes, qs, l0, k, route);
      now := clock.Now();
    }

    static method ShiftInPlace(ghost vertexes: seq<NSRouter?>, ghost qs: seq<NSQueue>, ghost l0: Load, ghost k: nat,
                               route: NSQueue)
      requires Carries(vertexes, qs, l0) && k < |qs| && qs[k] == route && route.queue != []
      requires forall i, j :: 0 <= i < j < |qs| ==> qs[i] != qs[j]
      modifies route`queue, route`size
      ensures Carries(vertexes, qs, Shift(l0, k))
    {
      var pkt := route.queue[0].0;
      route.queue := route.queue[1..];
      route.size := route.size - pkt.length;
    }

    /** createTable: routing table by Dijkstra's algorithm with unit weights. */
    method CreateTable(vertexes: seq<NSRouter?>, ghost g: Graph, ghost pred0: seq<int>) returns (ghost pred: seq<int>)
      requires Wired(vertexes, g) && id in Vertices(vertexes) && vertexes[id] == this
      requires Traced(vertexes, g, pred0)
      requires |Vertices(vertexes)| <= INFINITY
      requires forall v :: v in Vertices(vertexes) ==> Connected(g, id, v)
      modifies this`routingTable, (set r: NSRouter | r in vertexes)`done, (set r: NSRouter | r in vertexes)`distance,
        (set r: NSRouter | r in vertexes)`predecessor
      ensures Wired(vertexes, g)
      ensures forall v :: v in Vertices(vertexes) ==> vertexes[v].distance == Hops(g, id, v)
      ensures TableRight(vertexes, g, this) && Traced(vertexes, g, pred)
    {
      ghost var l := Label(vertexes, g, pred0);
      pred := l.pred;
      BuildTable(vertexes, g, l);
      forall v | v in Vertices(vertexes) ensures vertexes[v].distance == Hops(g, id, v) {
        DoneIsShortest(g, Vertices(vertexes), l, id, v);
        DistanceIsUnique(g, id, v, l.dist[v], Hops(g, id, v));
      }
    }

    /** The part of createTable that computes distances and predecessors. */
    method Label(vertexes: seq<NSRouter?>, ghost g: Graph, ghost pred: seq<int>) returns (ghost l: Labels)
      requires Wired(vertexes, g) && id in Vertices(vertexes) && vertexes[id] == this && Traced(vertexes, g, pred)
      modifies (set r: NSRouter | r in vertexes)`done, (set r: NSRouter | r in vertexes)`distance,
        (set r: NSRouter | r in vertexes)`predecessor
      ensures Wired(vertexes, g) && Holds(vertexes, l) && AllDone(g, Vertices(vertexes), l, id)
    {
      hide Labelled, RoutesOf, Holds;
      l := ResetLabels(vertexes, g, pred);
      ghost var vertices := Vertices(vertexes);
      ghost var todo := vertices;
      var i := 0;
      while i < |vertexes|
        invariant 0 <= i <= |vertexes|
        invariant Wired(vertexes, g) && Holds(vertexes, l) && Labelled(g, vertices, l, id, -1, 0)
        invariant Todo(vertices, l, todo)
        invariant |todo| == |From(vertexes, i)|
      {
        FromStep(vertexes, i);
        if vertexes[i] != null {
          l, todo := ExpandNearest(vertexes, g, l, todo);
        }
        i := i + 1;
      }
      assert todo == {};
    }

    /** One turn of the main loop. */
    method ExpandNearest(vertexes: seq<NSRouter?>, ghost g: Graph, ghost l0: Labels, ghost todo0: set<nat>)
      returns (ghost l: Labels, ghost todo: set<nat>)
      requires Wired(vertexes, g) && Holds(vertexes, l0) && id in Vertices(vertexes) && vertexes[id] == this
      requires Labelled(g, Vertices(vertexes), l0, id, -1, 0)
      requires Todo(Vertices(vertexes), l0, todo0) && todo0 != {}
      modifies (set r: NSRouter | r in vertexes)`done, (set r: NSRouter | r in vertexes)`distance,
        (set r: NSRouter | r in vertexes)`predecessor
      ensures Wired(vertexes, g) && Holds(vertexes, l) && Labelled(g, Vertices(vertexes), l, id, -1, 0)
      ensures Todo(Vertices(vertexes), l, todo) && |todo| == |todo0| - 1
    {
      hide Wired, Holds, Labelled, Todo, Nearest;
      var next := SelectNext(vertexes, g, l0, todo0);
      WiredShape(vertexes, g, next.id);
      SelectLabelled(g, Vertices(vertexes), l0, id, next.id);
      l := RelaxRoutes(vertexes, g, l0, next);
      LabelledSize(g, Vertices(vertexes), l, id, next.id, |g[next.id]|);
      DoneLabelled(g, Vertices(vertexes), l, id, next.id, |g[next.id]|);
      todo := TodoDrops(Vertices(vertexes), l0, todo0, next.id, l.(done := l.done[next.id := true]));
      l := MarkDone(vertexes, l, next);
    }

    method MarkDone(vertexes: seq<NSRouter?>, ghost l0: Labels, next: NSRouter) returns (ghost l: Labels)
      requires Holds(vertexes, l0) && Numbered(vertexes) && next.id in Vertices(vertexes) && vertexes[next.id] == next
      modifies (set r: NSRouter | r in vertexes)`done
      ensures Holds(vertexes, l) && l == l0.(done := l0.done[next.id := true])
    {
      l := l0.(done := l0.done[next.id := true]);
      next.done := next.done + 1;
    }

    /** The base state of all routers; predecessors are left as the last run left them. */
    method ResetLabels(vertexes: seq<NSRouter?>, ghost g: Graph, ghost pred: seq<int>) returns (ghost l: Labels)
      requires Wired(vertexes, g) && id in Vertices(vertexes) && vertexes[id] == this && Traced(vertexes, g, pred)
      modifies (set r: NSRouter | r in vertexes)`done, (set r: NSRouter | r in vertexes)`distance
      ensures Wired(vertexes, g) && Holds(vertexes, l)
      ensures l == Start(id, pred) && Labelled(g, Vertices(vertexes), l, id, -1, 0)
    {
      hide Wired, Labelled, Linked;
      WiredShape(vertexes, g, id);
      l := Start(id, pred);
      WiredIsGraphOn(vertexes, g);
      StartLabelled(g, Vertices(vertexes), id, pred);
      var i := 0;
      while i < |vertexes|
        invariant 0 <= i <= |vertexes|
        invariant Wired(vertexes, g)
        invariant forall v :: v in Vertices(vertexes) && v < i ==>
          vertexes[v].distance == l.dist[v] && vertexes[v].done == 0
      {
        if vertexes[i] != null {
          vertexes[i].done := 0;
          if vertexes[i].id == id {
            vertexes[i].distance := 0;
          } else {
            vertexes[i].distance := INFINITY;
          }
        }
        i := i + 1;
      }
    }

    /** The nearest router that is not done. */
    method SelectNext(vertexes: seq<NSRouter?>, ghost g: Graph, ghost l: Labels, ghost todo: set<nat>)
      returns (next: NSRouter)
      requires Wired(vertexes, g) && Holds(vertexes, l) && Labelled(g, Vertices(vertexes), l, id, -1, 0)
      requires Todo(Vertices(vertexes), l, todo) && todo != {}
      ensures next.id in Vertices(vertexes) && vertexes[next.id] == next && next.id in todo
      ensures Nearest(Vertices(vertexes), l, next.id)
    {
      hide AllPreceded, Tight, Ordered, Reach, RoutesOf;
      var found: NSRouter? := null;
      var min := INFINITY + 1;
      var i := 0;
      while i < |vertexes|
        invariant 0 <= i <= |vertexes|
        invariant forall v :: v in todo && v < i ==> min <= l.dist[v]
        invariant if found == null then min == INFINITY + 1
                  else found.id in todo && vertexes[found.id] == found && min == l.dist[found.id]
      {
        if vertexes[i] != null {
          if vertexes[i].done == 0 && vertexes[i].distance < min {
            found := vertexes[i];
            min := vertexes[i].distance;
          }
        }
        i := i + 1;
      }
      ghost var some :| some in todo;
      assert l.dist[some] <= INFINITY;
      next := found;
    }

    /** The routes of the selected router, relaxed in order. */
    method RelaxRoutes(vertexes: seq<NSRouter?>, ghost g: Graph, ghost l0: Labels, next: NSRouter)
      returns (ghost l: Labels)
      requires Wired(vertexes, g) && Holds(vertexes, l0) && next.id in Vertices(vertexes) && vertexes[next.id] == next
      requires Labelled(g, Vertices(vertexes), l0, id, next.id, 0)
      modifies (set r: NSRouter | r in vertexes)`distance, (set r: NSRouter | r in vertexes)`predecessor
      ensures Wired(vertexes, g) && Holds(vertexes, l) && l.done == l0.done
      ensures Labelled(g, Vertices(vertexes), l, id, next.id, |g[next.id]|)
    {
      hide Labelled, Holds, RoutesOf, Edge;
      l := l0;
      ghost var vertices := Vertices(vertexes);
      var k := 0;
      while k < |next.routes|
        invariant 0 <= k <= |next.routes|
        invariant Wired(vertexes, g) && Holds(vertexes, l) && l.done == l0.done
        invariant Labelled(g, vertices, l, id, next.id, k)
      {
        RouteAt(vertexes, g, next.id, k);
        var edge := next.routes[k];
        if edge != null {
          l := RelaxEdge(vertexes, g, l, next, edge, k);
        } else {
          KeepLabelled(g, vertices, l, id, next.id, k);
        }
        k := k + 1;
      }
      RowLength(vertexes, g, next.id);
    }

    method RelaxEdge(vertexes: seq<NSRouter?>, ghost g: Graph, ghost l0: Labels, next: NSRouter, edge: NSQueue,
                     ghost k: nat)
      returns (ghost l: Labels)
      requires Wired(vertexes, g) && Holds(vertexes, l0) && next.id in Vertices(vertexes) && vertexes[next.id] == next
      requires Edge(g, next.id, k) && k in Vertices(vertexes) && edge.routeRef == vertexes[k]
      requires Labelled(g, Vertices(vertexes), l0, id, next.id, k)
      modifies (set r: NSRouter | r in vertexes)`distance, (set r: NSRouter | r in vertexes)`predecessor
      ensures Holds(vertexes, l) && l.done == l0.done
      ensures Labelled(g, Vertices(vertexes), l, id, next.id, k + 1)
    {
      hide Labelled, RoutesOf, Edge;
      l := l0;
      var weight := next.distance + 1;
      if edge.routeRef.distance > weight {
        RelaxLabelled(g, Vertices(vertexes), l, id, next.id, k);
        edge.routeRef.distance := weight;
        edge.routeRef.predecessor := next;
        l := Relax(l, next.id, k);
      } else {
        KeepLabelled(g, Vertices(vertexes), l, id, next.id, k);
      }
    }

    /** The last loop of createTable: each destination is reached through the first router of its way. */
    method BuildTable(vertexes: seq<NSRouter?>, ghost g: Graph, ghost l: Labels)
      requires Wired(vertexes, g) && Holds(vertexes, l) && id in Vertices(vertexes) && vertexes[id] == this
      requires AllDone(g, Vertices(vertexes), l, id) && |Vertices(vertexes)| <= INFINITY
      requires forall v :: v in Vertices(vertexes) ==> Connected(g, id, v)
      modifies this`routingTable
      ensures Wired(vertexes, g) && Holds(vertexes, l)
      ensures TableRight(vertexes, g, this)
    {
      hide Wired, Holds, AllDone, EntryRight, TableRight, Edge, Connected;
      routingTable := map[];
      WiredShape(vertexes, g, id);
      var i := 0;
      while i < |vertexes|
        invariant 0 <= i <= |vertexes|
        invariant Wired(vertexes, g) && Holds(vertexes, l)
        invariant forall v :: v in routingTable <==> v in Vertices(vertexes) && v < i && v != id
        invariant forall v :: v in routingTable ==> EntryRight(vertexes, g, id, v, routingTable[v])
      {
        if vertexes[i] != null && vertexes[i].id != id {
          var startRoute := FirstHop(vertexes, g, l, i);
          HopHasQueue(vertexes, g, id, startRoute.id, i);
          WiredShape(vertexes, g, i);
          routingTable := routingTable[vertexes[i].id := routes[startRoute.id]];
        }
        i := i + 1;
      }
      FullTableIsRight(vertexes, g, this);
    }

    /** The walk back along the predecessors. */
    method FirstHop(vertexes: seq<NSRouter?>, ghost g: Graph, ghost l: Labels, dest: nat) returns (startRoute: NSRouter)
      requires Wired(vertexes, g) && Holds(vertexes, l) && id in Vertices(vertexes) && vertexes[id] == this
      requires AllDone(g, Vertices(vertexes), l, id) && |Vertices(vertexes)| <= INFINITY
      requires dest in Vertices(vertexes) && dest != id && Connected(g, id, dest)
      ensures startRoute.id in Vertices(vertexes) && vertexes[startRoute.id] == startRoute
      ensures Edge(g, id, startRoute.id) && Connected(g, startRoute.id, dest)
      ensures Hops(g, startRoute.id, dest) == Hops(g, id, dest) - 1
    {
      ghost var vertices := Vertices(vertexes);
      DoneIsShortest(g, vertices, l, id, dest);
      startRoute := vertexes[dest];
      assert Reach(g, dest, dest, 0);
      NoStepIsHome(g, id, dest);
      while startRoute.predecessor.id != id
        invariant startRoute.id in vertices && vertexes[startRoute.id] == startRoute
        invariant OnTheWay(g, vertices, l, id, dest, startRoute.id)
        decreases l.dist[startRoute.id]
      {
        StepBack(g, vertices, l, id, dest, startRoute.id);
        startRoute := startRoute.predecessor;
      }
      StepBack(g, vertices, l, id, dest, startRoute.id);
      FirstHopIsCloser(g, vertices, l, id, dest, startRoute.id);
    }
  }

  /** The routers that exist, by number. */
  ghost function Vertices(vertexes: seq<NSRouter?>): set<nat> {
    set v | 0 <= v < |vertexes| && vertexes[v] != null
  }

  /** Routers sit at their own numbers, and their routes are those of g, each leading to the router of that number. */
  ghost predicate Wired(vertexes: seq<NSRouter?>, g: Graph)
    reads (set r: NSRouter | r in vertexes)`routes
  {
    && |g| == |vertexes|
    && Numbered(vertexes)
    && (forall u :: u in Vertices(vertexes) ==> RoutesOf(vertexes, g, u))
    && (forall u :: 0 <= u < |vertexes| && vertexes[u] == null ==> g[u] == [])
  }

  ghost predicate Numbered(vertexes: seq<NSRouter?>) {
    forall u :: u in Vertices(vertexes) ==> vertexes[u].id == u
  }

  ghost predicate RoutesOf(vertexes: seq<NSRouter?>, g: Graph, u: nat)
    requires u < |vertexes| == |g| && vertexes[u] != null
    reads (vertexes[u] as NSRouter)`routes
  {
    var r := vertexes[u];
    && |g[u]| == |r.routes|
    && forall v :: 0 <= v < |r.routes| ==>
      && (g[u][v] <==> r.routes[v] != null)
      && (r.routes[v] != null ==>
           v in Vertices(vertexes) && r.routes[v].routeRef == vertexes[v] && r.routes[v].owner == r)
  }

  /** Router v has no predecessor if p is -1, otherwise router p. */
  ghost predicate PredecessorIs(vertexes: seq<NSRouter?>, v: nat, p: int)
    requires v < |vertexes| && vertexes[v] != null
    reads (set r: NSRouter | r in vertexes)`predecessor
  {
    if p == -1 then vertexes[v].predecessor == null
    else 0 <= p < |vertexes| && vertexes[p] != null && vertexes[v].predecessor == vertexes[p]
  }

  /** The predecessors are those of `pred`, and each has a route to the router whose predecessor it is. */
  ghost predicate Traced(vertexes: seq<NSRouter?>, g: Graph, pred: seq<int>)
    reads (set r: NSRouter | r in vertexes)`predecessor
  {
    && |pred| == |vertexes| && Linked(g, pred)
    && forall v :: v in Vertices(vertexes) ==> PredecessorIs(vertexes, v, pred[v])
  }

  /** The scratch fields hold the labels l. */
  ghost predicate Holds(vertexes: seq<NSRouter?>, l: Labels)
    reads (set r: NSRouter | r in vertexes)`done, (set r: NSRouter | r in vertexes)`distance,
      (set r: NSRouter | r in vertexes)`predecessor
  {
    && |l.dist| == |l.pred| == |l.done| == |vertexes|
    && forall v :: v in Vertices(vertexes) ==>
      && vertexes[v].distance == l.dist[v]
      && (vertexes[v].done != 0 <==> l.done[v])
      && PredecessorIs(vertexes, v, l.pred[v])
  }

  lemma RouteAt(vertexes: seq<NSRouter?>, g: Graph, u: nat, k: nat)
    requires Wired(vertexes, g) && u in Vertices(vertexes) && k < |vertexes[u].routes|
    ensures Edge(g, u, k) <==> vertexes[u].routes[k] != null
    ensures vertexes[u].routes[k] != null ==> k in Vertices(vertexes) && vertexes[u].routes[k].routeRef == vertexes[k]
  {
    assert RoutesOf(vertexes, g, u);
  }

  lemma RowLength(vertexes: seq<NSRouter?>, g: Graph, u: nat)
    requires Wired(vertexes, g) && u in Vertices(vertexes)
    ensures |g[u]| == |vertexes[u].routes|
  {
    assert RoutesOf(vertexes, g, u);
  }

  /** `todo` holds the routers that are not done. */
  ghost predicate Todo(vertices: set<nat>, l: Labels, todo: set<nat>) {
    && (forall v :: v in vertices ==> v < |l.done|)
    && forall v :: v in todo <==> v in vertices && !l.done[v]
  }

  lemma TodoDrops(vertices: set<nat>, l: Labels, todo: set<nat>, u: nat, m: Labels) returns (rest: set<nat>)
    requires Todo(vertices, l, todo) && u in todo && u < |l.done| && m.done == l.done[u := true]
    ensures Todo(vertices, m, rest) && |rest| == |todo| - 1
  {
    rest := todo - {u};
  }

  lemma LabelledSize(g: Graph, vertices: set<nat>, l: Labels, src: nat, cur: int, k: nat)
    requires Labelled(g, vertices, l, src, cur, k)
    ensures |l.done| == |l.dist| == |g|
  {}

  lemma WiredShape(vertexes: seq<NSRouter?>, g: Graph, u: nat)
    requires Wired(vertexes, g) && u in Vertices(vertexes)
    ensures |g| == |vertexes| && Numbered(vertexes) && u < |g| && vertexes[u].id == u
  {
    hide RoutesOf;
  }

  /** The routers numbered i or more. */
  ghost function From(vertexes: seq<NSRouter?>, i: nat): set<nat> {
    set v | i <= v < |vertexes| && vertexes[v] != null
  }

  lemma FromStep(vertexes: seq<NSRouter?>, i: nat)
    requires i < |vertexes|
    ensures vertexes[i] != null ==> i in From(vertexes, i) && |From(vertexes, i + 1)| == |From(vertexes, i)| - 1
    ensures vertexes[i] == null ==> From(vertexes, i + 1) == From(vertexes, i)
  {
    if vertexes[i] != null {
      assert From(vertexes, i + 1) == From(vertexes, i) - {i};
    }
  }

  /** q is a route of router u to a neighbour exactly one hop closer to v. */
  ghost predicate EntryRight(vertexes: seq<NSRouter?>, g: Graph, u: nat, v: nat, q: NSQueue)
    requires u < |vertexes| && vertexes[u] != null
    reads (vertexes[u] as NSRouter)`routes
  {
    var h := q.routeRef.id;
    && h in Vertices(vertexes) && vertexes[h] == q.routeRef
    && h < |vertexes[u].routes| && vertexes[u].routes[h] == q
    && Edge(g, u, h) && Connected(g, u, v) && Connected(g, h, v) && Hops(g, h, v) == Hops(g, u, v) - 1
  }

  /** A neighbour one hop closer has a queue, which is a right entry. */
  lemma HopHasQueue(vertexes: seq<NSRouter?>, g: Graph, u: nat, h: nat, v: nat)
    requires Wired(vertexes, g) && u in Vertices(vertexes) && h in Vertices(vertexes)
    requires Edge(g, u, h) && Connected(g, u, v) && Connected(g, h, v) && Hops(g, h, v) == Hops(g, u, v) - 1
    ensures h < |vertexes[u].routes| && vertexes[u].routes[h] != null
    ensures EntryRight(vertexes, g, u, v, vertexes[u].routes[h])
  {
    hide RoutesOf, Edge, Connected;
    RowLength(vertexes, g, u);
    EdgeInRow(g, u, h);
    RouteAt(vertexes, g, u, h);
  }

  lemma EdgeInRow(g: Graph, u: nat, v: nat)
    requires Edge(g, u, v)
    ensures u < |g| && v < |g[u]|
  {}

  /** The router has an entry for every other router, and all its entries are right. */
  ghost predicate TableRight(vertexes: seq<NSRouter?>, g: Graph, r: NSRouter)
    requires r.id < |vertexes| && vertexes[r.id] == r
    reads r`routingTable, r`routes
  {
    && r.routingTable.Keys == Vertices(vertexes) - {r.id}
    && forall v :: v in r.routingTable ==> EntryRight(vertexes, g, r.id, v, r.routingTable[v])
  }

  lemma FullTableIsRight(vertexes: seq<NSRouter?>, g: Graph, r: NSRouter)
    requires r.id < |vertexes| && vertexes[r.id] == r
    requires forall v :: v in r.routingTable <==> v in Vertices(vertexes) && v != r.id
    requires forall v :: v in r.routingTable ==> EntryRight(vertexes, g, r.id, v, r.routingTable[v])
    ensures TableRight(vertexes, g, r)
  {
    hide EntryRight;
  }

  lemma WiredIsGraphOn(vertexes: seq<NSRouter?>, g: Graph)
    requires Wired(vertexes, g)
    ensures GraphOn(g, Vertices(vertexes))
  {
    hide RoutesOf;
    forall u: nat, v: nat | Edge(g, u, v) ensures u in Vertices(vertexes) && v in Vertices(vertexes) {
      if u in Vertices(vertexes) {
        RowLength(vertexes, g, u);
        RouteAt(vertexes, g, u, v);
      }
    }
  }

  // The network as a whole

  /** The routers waiting to be run are routers of the network. */
  ghost predicate Known(vertexes: seq<NSRouter?>, rs: seq<NSRouter>) {
    forall i :: 0 <= i < |rs| ==> rs[i].id in Vertices(vertexes) && vertexes[rs[i].id] == rs[i]
  }

  lemma OneMoreKnown(vertexes: seq<NSRouter?>, rs: seq<NSRouter>, r: NSRouter)
    requires Known(vertexes, rs) && r.id in Vertices(vertexes) && vertexes[r.id] == r
    ensures Known(vertexes, rs + [r])
  {}

  /** The objects make up the network c, all routing tables right. */
  ghost predicate Plugged(vertexes: seq<NSRouter?>, qs: seq<NSQueue>, c: Config)
    reads (set r: NSRouter | r in vertexes)`routes, (set r: NSRouter | r in vertexes)`routingTable
  {
    && Wired(vertexes, c.g) && Sound(c) && c.vertices == Vertices(vertexes)
    && (forall u :: u in c.vertices ==> vertexes[u].nodes == c.nodes && TableRight(vertexes, c.g, vertexes[u]))
    && QueuesListed(vertexes, qs, c)
  }

  /** qs lists all the queues of the routers, each once. */
  ghost predicate QueuesListed(vertexes: seq<NSRouter?>, qs: seq<NSQueue>, c: Config)
    requires Sound(c) && c.vertices == Vertices(vertexes)
    reads (set r: NSRouter | r in vertexes)`routes
  {
    && |qs| == |c.from|
    && (forall k :: 0 <= k < |qs| ==> InPlace(vertexes, qs[k], c, k))
    && (forall j, k :: 0 <= j < k < |qs| ==> qs[j] != qs[k])
    && (forall u, v :: u in c.vertices && 0 <= v < |vertexes[u].routes| && vertexes[u].routes[v] != null ==>
         Listed(qs, c, u, v, vertexes[u].routes[v]))
  }

  /** q is the queue that the configuration describes at position k. */
  ghost predicate InPlace(vertexes: seq<NSRouter?>, q: NSQueue, c: Config, k: nat)
    requires Sound(c) && c.vertices == Vertices(vertexes) && k < |c.from|
    reads (set r: NSRouter | r in vertexes)`routes
  {
    && q.routeRef == vertexes[c.to[k]] && c.link[k] == Link(q.rate, q.latency, q.max)
    && c.to[k] < |vertexes[c.from[k]].routes| && vertexes[c.from[k]].routes[c.to[k]] == q
  }

  /** The queue is one of the list, there with its own ends. */
  ghost predicate Listed(qs: seq<NSQueue>, c: Config, u: nat, v: nat, q: NSQueue)
    requires |c.from| == |c.to|
  {
    exists k :: 0 <= k < |qs| && k < |c.from| && qs[k] == q && c.from[k] == u && c.to[k] == v
  }

  function SentBytes(delivered: seq<(nat, Packet)>, u: nat): int {
    if delivered == [] then 0
    else
      var last := delivered[|delivered| - 1];
      SentBytes(delivered[..|delivered| - 1], u) + if last.0 == u then last.1.length - 16 else 0
  }

  /** Queues and byte counters hold the load l; each queue's `size` is the number of bytes in it. */
  ghost predicate Carries(vertexes: seq<NSRouter?>, qs: seq<NSQueue>, l: Load)
    reads qs, (set r: NSRouter | r in vertexes)`bytesSent
  {
    && Fits(l, |qs|)
    && (forall k :: 0 <= k < |qs| ==>
         qs[k].queue == l.queued[k] && qs[k].dropped == |l.dropped[k]| && qs[k].size == Bytes(l.queued[k]))
    && (forall u :: u in Vertices(vertexes) ==> vertexes[u].bytesSent == SentBytes(l.delivered, u))
  }

  lemma CarriesShape(vertexes: seq<NSRouter?>, qs: seq<NSQueue>, l: Load)
    requires Carries(vertexes, qs, l)
    ensures Fits(l, |qs|)
  {}

  lemma QueueHolds(vertexes: seq<NSRouter?>, qs: seq<NSQueue>, l: Load, k: nat)
    requires Carries(vertexes, qs, l) && k < |qs|
    ensures k < |l.queued| && qs[k].queue == l.queued[k]
  {}

  lemma PluggedQueue(vertexes: seq<NSRouter?>, qs: seq<NSQueue>, c: Config, k: nat)
    requires Plugged(vertexes, qs, c) && k < |qs|
    ensures qs[k].rate > 0 && |qs| == |c.link| == |c.from| == |c.to|
    ensures c.link[k] == Link(qs[k].rate, qs[k].latency, qs[k].max)
    ensures forall i, j :: 0 <= i < j < |qs| ==> qs[i] != qs[j]
    ensures c.to[k] in c.vertices && c.from[k] in c.vertices && vertexes[c.to[k]] == qs[k].routeRef
  {
    hide Wired, TableRight, Listed;
    assert InPlace(vertexes, qs[k], c, k);
  }

  lemma PluggedNumbers(vertexes: seq<NSRouter?>, qs: seq<NSQueue>, c: Config, u: nat)
    requires Plugged(vertexes, qs, c) && u in c.vertices
    ensures u < |vertexes| && vertexes[u] != null && vertexes[u].id == u && u in Vertices(vertexes)
  {
    hide RoutesOf, TableRight, QueuesListed;
  }

  lemma RouteIndex(vertexes: seq<NSRouter?>, qs: seq<NSQueue>, c: Config, u: nat, v: nat) returns (k: nat)
    requires Plugged(vertexes, qs, c) && u in c.vertices && v < |vertexes[u].routes| && vertexes[u].routes[v] != null
    ensures k < |qs| && k < |c.from| && k < |c.to| && qs[k] == vertexes[u].routes[v] && c.from[k] == u && c.to[k] == v
  {
    hide Wired, TableRight, InPlace;
    assert Listed(qs, c, u, v, vertexes[u].routes[v]);
    k :| 0 <= k < |qs| && k < |c.from| && qs[k] == vertexes[u].routes[v] && c.from[k] == u && c.to[k] == v;
  }

  /** The table entry for d is a listed queue that takes packets for d one hop closer. */
  lemma TableIndex(vertexes: seq<NSRouter?>, qs: seq<NSQueue>, c: Config, u: nat, d: nat) returns (k: nat)
    requires Plugged(vertexes, qs, c) && u in c.vertices && d in c.vertices && d != u
    ensures d in vertexes[u].routingTable && k < |qs| && qs[k] == vertexes[u].routingTable[d] && c.from[k] == u
    ensures Hops(c.g, c.to[k], d) == Hops(c.g, u, d) - 1
  {
    hide RoutesOf, InPlace;
    assert TableRight(vertexes, c.g, vertexes[u]);
    var q := vertexes[u].routingTable[d];
    assert EntryRight(vertexes, c.g, u, d, q);
    assert Listed(qs, c, u, q.routeRef.id, q);
    k :| 0 <= k < |qs| && k < |c.from| && qs[k] == q && c.from[k] == u && c.to[k] == q.routeRef.id;
  }

  // Which routers are put on the list, and which queues of a router have been looked at

  ghost predicate Lists(rs: seq<NSRouter>, u: nat) {
    exists i :: 0 <= i < |rs| && rs[i].id == u
  }

  /** `rs` goes on with all other routers than u whose queues have changed. */
  ghost predicate Woken(c: Config, u: nat, l: Load, m: Load, rs: seq<NSRouter>, out: seq<NSRouter>) {
    && |l.queued| == |m.queued| == |c.from| && rs <= out
    && forall k :: 0 <= k < |c.from| && c.from[k] != u && m.queued[k] != l.queued[k] ==> Lists(out, c.from[k])
  }

  lemma WokenSame(c: Config, u: nat, l: Load, rs: seq<NSRouter>)
    requires Orderly(c, l)
    ensures Woken(c, u, l, l, rs, rs)
  {}

  /**
   * What running router u may do: no packet appears or disappears, all queues stay first in, first out, u's own only
   * losing packets and all others only gaining some; the routers of the latter are put on the list. Packets leave
   * and enter in time, and move along the links only. The hops that all packets together still have to go become
   * fewer, or nothing changes.
   */
  ghost predicate Ran(c: Config, u: nat, l: Load, m: Load, rs: seq<NSRouter>, out: seq<NSRouter>,
                      reading: nat -> real, lo: nat, hi: nat)
  {
    && Accounted(m) == Accounted(l) && InOrder(c, u, l, m) && Follows(l, m) && Woken(c, u, l, m, rs, out)
    && Timed(c, l, m, reading, lo, hi) && Flow(c, l, m, multiset{})
    && (Work(c, m.queued, 0) < Work(c, l.queued, 0) || (m == l && out == rs))
  }

  lemma RanSame(c: Config, u: nat, l: Load, rs: seq<NSRouter>, reading: nat -> real, lo: nat, hi: nat)
    requires Orderly(c, l)
    ensures Ran(c, u, l, l, rs, rs, reading, lo, hi)
  {
    hide InOrder, Follows, Orderly, Woken, Timed, Flow;
    FlowSame(c, l);
    TimedSame(c, l, reading, lo, hi);
    OrderlyShape(c, l);
    InOrderSame(c, u, l);
    WokenSame(c, u, l, rs);
  }

  lemma RanJoins(c: Config, u: nat, l: Load, m: Load, n: Load, rs: seq<NSRouter>, mid: seq<NSRouter>,
                 out: seq<NSRouter>, reading: nat -> real, lo: nat, between: nat, read: nat, hi: nat)
    requires Ran(c, u, l, m, rs, mid, reading, lo, between) && Ran(c, u, m, n, mid, out, reading, read, hi)
    requires lo <= read && between <= hi
    ensures Ran(c, u, l, n, rs, out, reading, lo, hi)
  {
    hide Accounted, InOrder, Follows, Woken, Work, Timed, Flow;
    FlowGoesOn(c, l, m, n, multiset{});
    InOrderJoins(c, u, l, m, n);
    FollowsJoins(l, m, n);
    WokenJoins(c, u, l, m, n, rs, mid, out);
    TimedJoins(c, l, m, n, reading, lo, between, read, hi);
  }

  lemma ListsMore(rs: seq<NSRouter>, out: seq<NSRouter>, u: nat)
    requires rs <= out && Lists(rs, u)
    ensures Lists(out, u)
  {
    var i :| 0 <= i < |rs| && rs[i].id == u;
    assert out[i] == rs[i];
  }

  lemma WokenJoins(c: Config, u: nat, l: Load, m: Load, n: Load, rs: seq<NSRouter>, mid: seq<NSRouter>,
                   out: seq<NSRouter>)
    requires Woken(c, u, l, m, rs, mid) && Woken(c, u, m, n, mid, out)
    ensures Woken(c, u, l, n, rs, out)
  {
    hide Lists;
    forall k | 0 <= k < |c.from| && c.from[k] != u && n.queued[k] != l.queued[k] ensures Lists(out, c.from[k]) {
      if m.queued[k] != l.queued[k] {
        ListsMore(mid, out, c.from[k]);
      }
    }
  }

  /** A packet that leaves queue k and is queued again puts the router it has come to on the list. */
  lemma HopWakes(c: Config, l: Load, k: nat, n: Load, rs: seq<NSRouter>, next: NSRouter, out: seq<NSRouter>)
    requires Orderly(c, l) && Orderly(c, n) && k < |c.from| && next.id == c.to[k]
    requires out == if n.delivered == l.delivered then rs + [next] else rs
    requires forall j :: 0 <= j < |c.from| && c.from[j] != c.from[k] && n.queued[j] != l.queued[j] ==>
      c.from[j] == c.to[k] && n.delivered == l.delivered
    ensures Woken(c, c.from[k], l, n, rs, out)
  {
    assert n.delivered == l.delivered ==> out[|rs|] == next;
  }

  /** One packet's hop, from a reading at which it was due to a later one, is something that running a router may do. */
  lemma HopRuns(c: Config, l: Load, k: nat, n: Load, rs: seq<NSRouter>, next: NSRouter, out: seq<NSRouter>,
                reading: nat -> real, due: nat, hi: nat)
    requires Orderly(c, l) && k < |c.from| && l.queued[k] != [] && next.id == c.to[k]
    requires due < hi - 1 && l.queued[k][0].1 <= reading(due)
    requires Received(c, Shift(l, k), c.to[k], l.queued[k][0].0, reading(hi - 1), n)
    requires out == if n.delivered == l.delivered then rs + [next] else rs
    ensures Orderly(c, n) && Ran(c, c.from[k], l, n, rs, out, reading, due, hi) && OthersStay(c, k, l, n)
    ensures |l.queued| == |n.queued| == |c.from| && Work(c, n.queued, 0) < Work(c, l.queued, 0)
  {
    hide Orderly, Received, Work, Accounted, InOrder, OthersStay, Follows, Woken, Timed, Flow;
    HasDestination(c, l, k);
    HopFlows(c, l, k, reading(hi - 1), n);
    OrderlyShape(c, l);
    ShiftEffect(c, l, k);
    HopEffect(c, l, k, reading(hi - 1), n);
    HopWakes(c, l, k, n, rs, next, out);
    OrderlyShape(c, n);
    ShiftIsTimed(c, l, k, reading, due, hi);
    ReceivedIsTimed(c, Shift(l, k), c.to[k], l.queued[k][0].0, reading, hi - 1, hi, n);
    TimedJoins(c, l, Shift(l, k), n, reading, due, hi, hi - 1, hi);
  }

  lemma ShiftShape(c: Config, l: Load, k: nat)
    requires Orderly(c, l) && k < |c.from| && l.queued[k] != []
    ensures Fits(Shift(l, k), |c.from|) && Shift(l, k).delivered == l.delivered
  {}

  lemma HeadCanLeave(vertexes: seq<NSRouter?>, qs: seq<NSQueue>, c: Config, l: Load, k: nat)
    requires Plugged(vertexes, qs, c) && Carries(vertexes, qs, l) && Orderly(c, l)
    requires k < |qs| && k < |c.from| && qs[k].queue != []
    ensures k < |l.queued| && qs[k].queue == l.queued[k]
    ensures c.to[k] in c.vertices && c.vertices == Vertices(vertexes)
    ensures qs[k].routeRef.id == c.to[k] && vertexes[c.to[k]] == qs[k].routeRef && qs[k].routeRef in vertexes
    ensures DestOf(c.nodes, l.queued[k][0].0).Some?
    ensures |l.queued| == |l.left| && Shift(l, k).delivered == l.delivered
  {
    hide Carries, Orderly, DestOf, Forwards, Wired, TableRight, QueuesListed;
    PluggedQueue(vertexes, qs, c, k);
    PluggedNumbers(vertexes, qs, c, c.to[k]);
    QueueHolds(vertexes, qs, l, k);
    OrderlyShape(c, l);
    HasDestination(c, l, k);
    ShiftShape(c, l, k);
  }

  lemma HasDestination(c: Config, l: Load, k: nat)
    requires Orderly(c, l) && k < |c.from| && l.queued[k] != []
    ensures DestOf(c.nodes, l.queued[k][0].0).Some?
  {
    assert Forwards(c, k, l.queued[k][0].0);
  }

  lemma OthersStaySame(c: Config, k: nat, l: Load)
    requires Fits(l, |c.from|) && k < |c.from|
    ensures OthersStay(c, k, l, l)
  {}

  lemma StartLooking(c: Config, u: nat, l: Load, reading: nat -> real, lo: nat)
    requires Sound(c)
    ensures Least(l, map[], reading, None) && Covers(c, u, 0, map[], lo, lo)
  {}

  /** One more queue of the router has been looked at. */
  lemma LeastGrows(c: Config, l: Load, m: Load, u: nat, r: nat, at: map<nat, nat>, k: nat, reading: nat -> real, i: nat,
                   wait: Option<real>, packTime: Option<real>, lo: nat, hi: nat)
    requires Least(l, at, reading, wait) && OthersStay(c, k, l, m)
    requires Covers(c, u, r, at, lo, hi) && c.from[k] == u && c.to[k] == r
    requires packTime == if m.queued[k] == [] then None else Some(m.queued[k][0].1 - reading(i))
    ensures Least(m, at[k := i], reading, Shorter(wait, packTime))
  {
    var out, least := at[k := i], Shorter(wait, packTime);
    LeastBound(c, l, m, at, k, reading, i, wait, least);
    if least.Some? {
      if least == packTime {
        assert k in out && least.value == m.queued[k][0].1 - reading(out[k]);
      } else {
        var j :| j in at && l.queued[j] != [] && wait.value == l.queued[j][0].1 - reading(at[j]);
        assert j in out && m.queued[j] != [] && least.value == m.queued[j][0].1 - reading(out[j]);
      }
    }
  }

  lemma LeastBound(c: Config, l: Load, m: Load, at: map<nat, nat>, k: nat, reading: nat -> real, i: nat,
                   wait: Option<real>, least: Option<real>)
    requires Least(l, at, reading, wait) && OthersStay(c, k, l, m) && k !in at
    requires forall j :: j in at ==> j < |c.from| && c.from[j] == c.from[k]
    requires wait.Some? ==> least.Some? && least.value <= wait.value
    requires m.queued[k] != [] ==> least.Some? && least.value <= m.queued[k][0].1 - reading(i)
    ensures forall j :: j in at ==> j < |m.queued|
    ensures forall j :: j in at[k := i] && m.queued[j] != [] ==>
      least.Some? && least.value <= m.queued[j][0].1 - reading(at[k := i][j])
  {
    forall j | j in at[k := i] && m.queued[j] != []
      ensures least.Some? && least.value <= m.queued[j][0].1 - reading(at[k := i][j])
    {
      assert j != k ==> j in at && m.queued[j] == l.queued[j];
    }
  }

  /** The queues of router u to routers below r have been looked at, and no others, with readings from lo to hi - 1. */
  ghost predicate Covers(c: Config, u: nat, r: nat, at: map<nat, nat>, lo: nat, hi: nat) {
    && |c.from| == |c.to| && lo <= hi
    && (forall k: nat :: k in at <==> k < |c.from| && c.from[k] == u && c.to[k] < r)
    && forall k :: k in at ==> lo <= at[k] < hi
  }

  lemma CoversNext(vertexes: seq<NSRouter?>, qs: seq<NSQueue>, c: Config, u: nat, r: nat, k: nat, at: map<nat, nat>,
                   lo: nat, read: nat, hi: nat)
    requires Plugged(vertexes, qs, c) && Covers(c, u, r, at, lo, read) && read < hi
    requires k < |c.from| && c.from[k] == u && c.to[k] == r
    ensures Covers(c, u, r + 1, at[k := hi - 1], lo, hi)
  {
    hide Wired, TableRight, Listed;
    forall j | 0 <= j < |c.from| && c.from[j] == u && c.to[j] == r ensures j == k {
      assert InPlace(vertexes, qs[j], c, j) && InPlace(vertexes, qs[k], c, k);
    }
  }

  lemma CoversNoQueue(vertexes: seq<NSRouter?>, qs: seq<NSQueue>, c: Config, u: nat, r: nat, at: map<nat, nat>,
                      lo: nat, hi: nat)
    requires Plugged(vertexes, qs, c) && Covers(c, u, r, at, lo, hi) && u in c.vertices
    requires r < |vertexes[u].routes| ==> vertexes[u].routes[r] == null
    ensures Covers(c, u, r + 1, at, lo, hi)
  {
    hide Wired, TableRight, Listed;
    forall j | 0 <= j < |c.from| && c.from[j] == u ensures c.to[j] != r {
      assert InPlace(vertexes, qs[j], c, j);
    }
  }

  lemma CoversAll(vertexes: seq<NSRouter?>, qs: seq<NSQueue>, c: Config, u: nat, at: map<nat, nat>, lo: nat, hi: nat)
    requires Plugged(vertexes, qs, c) && u in c.vertices && Covers(c, u, |vertexes[u].routes|, at, lo, hi)
    ensures forall k :: k in at <==> 0 <= k < |c.from| && c.from[k] == u
    ensures lo <= hi && forall k :: k in at ==> lo <= at[k] < hi
  {
    hide Wired, TableRight, Listed;
    forall k | 0 <= k < |c.from| && c.from[k] == u ensures k in at {
      assert InPlace(vertexes, qs[k], c, k);
    }
  }
}
