/**
 * The packets under way in the simulated network: where they are queued, dropped and delivered, and how far they
 * still go.
 */
module Traffic {
  import opened Common
  import opened Topology

  /** A packet as the simulator reads its header: destination address and port, and its length in bytes. */
  datatype Packet = Packet(destIP: u32, destPort: nat, length: nat)

  /** A queued packet with the time at which it may leave. */
  type Item = (Packet, real)

  const LOOPBACK: u32 := 0x7f000001

  type Nodes = map<(u32, nat), nat>

  /** The router a packet is for, if any; address 0.0.0.0 stands for this host. */
  function DestOf(nodes: Nodes, p: Packet): Option<nat> {
    var key := (if p.destIP == 0 then LOOPBACK else p.destIP, p.destPort);
    if key in nodes then Some(nodes[key]) else None
  }

  /** A packet goes to the router that the table names for its address and port, 0.0.0.0 counting as 127.0.0.1. */
  lemma DestLaw(nodes: Nodes, p: Packet, d: nat)
    ensures DestOf(nodes, p) == Some(d) <==>
      exists ip: u32 :: (ip, p.destPort) in nodes && nodes[(ip, p.destPort)] == d
        && (if p.destIP == 0 then ip == 0x7f00_0001 else ip == p.destIP)
  {
    var ip := if p.destIP == 0 then 0x7f00_0001 else p.destIP;
    assert (ip, p.destPort) in nodes ==> DestOf(nodes, p) == Some(nodes[(ip, p.destPort)]);
  }

  /** The rate in bytes a second, the latency and the limit of a queue. */
  datatype Link = Link(rate: nat, latency: real, max: nat)

  /**
   * The network: its map, its address table, and for each queue the router it belongs to, the one it leads to, its
   * link.
   */
  datatype Config = Config(g: Graph, vertices: set<nat>, nodes: Nodes, from: seq<nat>, to: seq<nat>, link: seq<Link>)

  ghost predicate Sound(c: Config) {
    && |c.from| == |c.to| == |c.link|
    && (forall k :: 0 <= k < |c.link| ==> c.link[k].rate > 0)
    && (forall u, v :: u in c.vertices && v in c.vertices ==> Connected(c.g, u, v))
    && (forall k :: k in c.nodes ==> c.nodes[k] in c.vertices)
    && (forall k :: 0 <= k < |c.from| ==> c.from[k] in c.vertices && c.to[k] in c.vertices)
  }

  /**
   * For each queue its contents, the items that have left it and the packets it dropped, each in order; and what was
   * delivered, with the router that delivered it.
   */
  datatype Load = Load(
    queued: seq<seq<Item>>, left: seq<seq<Item>>, dropped: seq<seq<Packet>>, delivered: seq<(nat, Packet)>)

  /** One entry for each of the n queues. */
  ghost predicate Fits(l: Load, n: nat) {
    |l.queued| == |l.left| == |l.dropped| == n
  }

  /** Queue k takes p one hop closer to its destination. */
  ghost predicate Forwards(c: Config, k: nat, p: Packet)
    requires Sound(c) && k < |c.from|
  {
    var d := DestOf(c.nodes, p);
    d.Some? && d.value != c.from[k] && Hops(c.g, c.to[k], d.value) == Hops(c.g, c.from[k], d.value) - 1
  }

  /**
   * No queue is longer than its limit, and every queued packet is on a shortest way, every delivered one at its
   * destination.
   */
  ghost predicate Orderly(c: Config, l: Load) {
    && Sound(c) && Fits(l, |c.from|)
    && (forall k :: 0 <= k < |c.from| ==> |l.queued[k]| <= c.link[k].max)
    && (forall k, j :: 0 <= k < |c.from| && 0 <= j < |l.queued[k]| ==> Forwards(c, k, l.queued[k][j].0))
    && forall i :: 0 <= i < |l.delivered| ==> DestOf(c.nodes, l.delivered[i].1) == Some(l.delivered[i].0)
  }

  // Totals

  function Bytes(items: seq<Item>): nat {
    if items == [] then 0 else items[0].0.length + Bytes(items[1..])
  }

  lemma {:induction false} BytesAppend(items: seq<Item>, i: Item)
    ensures Bytes(items + [i]) == Bytes(items) + i.0.length
  {
    if items == [] {
      assert items + [i] == [i];
    } else {
      assert (items + [i])[1..] == items[1..] + [i];
      BytesAppend(items[1..], i);
    }
  }

  function PacketsOf(items: seq<Item>): multiset<Packet> {
    if items == [] then multiset{} else multiset{items[0].0} + PacketsOf(items[1..])
  }

  function Queued(queued: seq<seq<Item>>): multiset<Packet> {
    if queued == [] then multiset{} else PacketsOf(queued[0]) + Queued(queued[1..])
  }

  function Dropped(dropped: seq<seq<Packet>>): multiset<Packet> {
    if dropped == [] then multiset{} else multiset(dropped[0]) + Dropped(dropped[1..])
  }

  function Delivered(delivered: seq<(nat, Packet)>): multiset<Packet> {
    if delivered == [] then multiset{}
    else Delivered(delivered[..|delivered| - 1]) + multiset{delivered[|delivered| - 1].1}
  }

  /** The packets that the network has delivered, dropped or still holds, each as often as it has it. */
  function Accounted(l: Load): multiset<Packet> {
    Queued(l.queued) + Dropped(l.dropped) + Delivered(l.delivered)
  }

  /** Hops that the items of a queue of router u still have to go. */
  ghost function WorkOf(c: Config, u: nat, items: seq<Item>): nat {
    if items == [] then 0 else Remaining(c, u, items[0].0) + WorkOf(c, u, items[1..])
  }

  ghost function Remaining(c: Config, u: nat, p: Packet): nat {
    var d := DestOf(c.nodes, p);
    if d.Some? && Connected(c.g, u, d.value) then Hops(c.g, u, d.value) else 0
  }

  ghost function Work(c: Config, queued: seq<seq<Item>>, k: nat): nat
    requires |queued| <= |c.from|
    decreases |queued| - k
  {
    if k >= |queued| then 0 else WorkOf(c, c.from[k], queued[k]) + Work(c, queued, k + 1)
  }

  lemma {:induction false} WorkOfAppend(c: Config, u: nat, items: seq<Item>, i: Item)
    ensures WorkOf(c, u, items + [i]) == WorkOf(c, u, items) + Remaining(c, u, i.0)
  {
    if items == [] {
      assert items + [i] == [i];
    } else {
      assert (items + [i])[1..] == items[1..] + [i];
      WorkOfAppend(c, u, items[1..], i);
    }
  }

  lemma {:induction false} WorkUpdate(c: Config, queued: seq<seq<Item>>, k: nat, items: seq<Item>, i: nat)
    requires k < |queued| <= |c.from|
    ensures Work(c, queued[k := items], i)
      == Work(c, queued, i) + if i <= k then WorkOf(c, c.from[k], items) - WorkOf(c, c.from[k], queued[k]) else 0
    decreases |queued| - i
  {
    if i < |queued| {
      WorkUpdate(c, queued, k, items, i + 1);
    }
  }

  lemma {:induction false} PacketsOfAppend(items: seq<Item>, i: Item)
    ensures PacketsOf(items + [i]) == PacketsOf(items) + multiset{i.0}
  {
    if items == [] {
      assert items + [i] == [i];
    } else {
      assert (items + [i])[1..] == items[1..] + [i];
      PacketsOfAppend(items[1..], i);
    }
  }

  lemma {:induction false} QueuedUpdate(queued: seq<seq<Item>>, k: nat, items: seq<Item>)
    requires k < |queued|
    ensures Queued(queued[k := items]) + PacketsOf(queued[k]) == Queued(queued) + PacketsOf(items)
  {
    if k > 0 {
      assert queued[k := items][1..] == queued[1..][k - 1 := items];
      QueuedUpdate(queued[1..], k - 1, items);
      SumOfSums(PacketsOf(queued[0]), Queued(queued[1..][k - 1 := items]), PacketsOf(queued[k]));
      SumOfSums(PacketsOf(queued[0]), Queued(queued[1..]), PacketsOf(items));
    } else {
      assert queued[k := items][1..] == queued[1..];
    }
  }

  lemma SumOfSums(a: multiset<Packet>, b: multiset<Packet>, c: multiset<Packet>)
    ensures (a + b) + c == a + (b + c)
  {}

  lemma SameSums(a: multiset<Packet>, b: multiset<Packet>, c: multiset<Packet>)
    requires a + c == b + c
    ensures a == b
  {
    forall p ensures a[p] == b[p] {
      assert (a + c)[p] == (b + c)[p];
    }
  }

  lemma {:induction false} DroppedUpdate(dropped: seq<seq<Packet>>, k: nat, p: Packet)
    requires k < |dropped|
    ensures Dropped(dropped[k := dropped[k] + [p]]) == Dropped(dropped) + multiset{p}
  {
    if k > 0 {
      assert dropped[k := dropped[k] + [p]][1..] == dropped[1..][k - 1 := dropped[k] + [p]];
      DroppedUpdate(dropped[1..], k - 1, p);
    } else {
      assert dropped[k := dropped[k] + [p]][1..] == dropped[1..];
    }
  }

  // What the code does to the load

  /** enQ: a full queue drops the packet, any other takes it at its end. */
  function EnQ(l: Load, k: nat, max: nat, i: Item): Load
    requires k < |l.queued| == |l.dropped|
  {
    if |l.queued[k]| >= max then l.(dropped := l.dropped[k := l.dropped[k] + [i.0]])
    else l.(queued := l.queued[k := l.queued[k] + [i]])
  }

  /** When a packet entering a queue of these contents at time vtime may leave. */
  function TxTime(link: Link, items: seq<Item>, pkt: Packet, vtime: real): real
    requires link.rate > 0
  {
    link.latency + pkt.length as real / link.rate as real + vtime
      + if |items| > 0 then Bytes(items) as real / link.rate as real else 0.0
  }

  /** Queue k, at router u and leading one hop closer to d, has taken or dropped the packet. */
  ghost predicate Enqueued(c: Config, l: Load, u: nat, d: nat, pkt: Packet, vtime: real, k: nat, m: Load)
    requires Sound(c) && Fits(l, |c.from|)
  {
    && k < |c.from| && c.from[k] == u && d in c.vertices
    && Hops(c.g, c.to[k], d) == Hops(c.g, u, d) - 1
    && m == EnQ(l, k, c.link[k].max, (pkt, TxTime(c.link[k], l.queued[k], pkt, vtime)))
  }

  /** What recv at router u makes of a load. */
  ghost predicate Received(c: Config, l: Load, u: nat, pkt: Packet, vtime: real, m: Load)
    requires Sound(c) && Fits(l, |c.from|) && u in c.vertices
  {
    match DestOf(c.nodes, pkt)
    case None => m == l
    case Some(d) => if d == u then m == Deliver(l, u, pkt) else exists k: nat :: Enqueued(c, l, u, d, pkt, vtime, k, m)
  }

  /** The head of queue k is taken out. */
  function Shift(l: Load, k: nat): Load
    requires k < |l.queued| == |l.left| && l.queued[k] != []
  {
    l.(queued := l.queued[k := l.queued[k][1..]], left := l.left[k := l.left[k] + [l.queued[k][0]]])
  }

  function Deliver(l: Load, u: nat, p: Packet): Load {
    l.(delivered := l.delivered + [(u, p)])
  }

  lemma OrderlyShape(c: Config, l: Load)
    requires Orderly(c, l)
    ensures Sound(c) && Fits(l, |c.from|)
  {}

  // What a step does to the totals

  lemma EnQEffect(c: Config, l: Load, k: nat, i: Item)
    requires Orderly(c, l) && k < |c.from| && Forwards(c, k, i.0)
    ensures var m := EnQ(l, k, c.link[k].max, i);
      && Orderly(c, m) && Accounted(m) == Accounted(l) + multiset{i.0}
      && Work(c, m.queued, 0) <= Work(c, l.queued, 0) + Remaining(c, c.from[k], i.0)
  {
    hide Accounted, Work, Remaining;
    EnQKeepsOrder(c, l, k, i);
    EnQAccounts(l, k, c.link[k].max, i);
    EnQWorks(c, l, k, c.link[k].max, i);
  }

  lemma EnQKeepsOrder(c: Config, l: Load, k: nat, i: Item)
    requires Orderly(c, l) && k < |c.from| && Forwards(c, k, i.0)
    ensures Orderly(c, EnQ(l, k, c.link[k].max, i))
  {
    hide Sound, Forwards;
  }

  lemma EnQAccounts(l: Load, k: nat, max: nat, i: Item)
    requires k < |l.queued| == |l.dropped|
    ensures Accounted(EnQ(l, k, max, i)) == Accounted(l) + multiset{i.0}
  {
    hide Queued, Dropped, Delivered, PacketsOf;
    if |l.queued[k]| >= max {
      DroppedUpdate(l.dropped, k, i.0);
    } else {
      var p := PacketsOf(l.queued[k]);
      QueuedUpdate(l.queued, k, l.queued[k] + [i]);
      PacketsOfAppend(l.queued[k], i);
      assert Queued(l.queued) + (p + multiset{i.0}) == (Queued(l.queued) + multiset{i.0}) + p;
      SameSums(Queued(l.queued[k := l.queued[k] + [i]]), Queued(l.queued) + multiset{i.0}, p);
    }
  }

  lemma EnQWorks(c: Config, l: Load, k: nat, max: nat, i: Item)
    requires k < |l.queued| == |l.dropped| == |c.from|
    ensures Work(c, EnQ(l, k, max, i).queued, 0) <= Work(c, l.queued, 0) + Remaining(c, c.from[k], i.0)
  {
    hide Remaining, WorkOf, Work;
    if |l.queued[k]| < max {
      WorkUpdate(c, l.queued, k, l.queued[k] + [i], 0);
      WorkOfAppend(c, c.from[k], l.queued[k], i);
    }
  }

  lemma ShiftEffect(c: Config, l: Load, k: nat)
    requires Orderly(c, l) && k < |c.from| && l.queued[k] != []
    ensures var m := Shift(l, k); var p := l.queued[k][0].0;
      && Orderly(c, m) && Accounted(m) + multiset{p} == Accounted(l)
      && Work(c, m.queued, 0) == Work(c, l.queued, 0) - Remaining(c, c.from[k], p)
      && Forwards(c, k, p) && Remaining(c, c.from[k], p) == Remaining(c, c.to[k], p) + 1
  {
    hide Accounted, Work;
    ShiftKeepsOrder(c, l, k);
    ShiftAccounts(l, k);
    WorkUpdate(c, l.queued, k, l.queued[k][1..], 0);
    assert Forwards(c, k, l.queued[k][0].0);
  }

  lemma ShiftKeepsOrder(c: Config, l: Load, k: nat)
    requires Orderly(c, l) && k < |c.from| && l.queued[k] != []
    ensures Orderly(c, Shift(l, k))
  {
    hide Sound, Forwards;
  }

  lemma ShiftAccounts(l: Load, k: nat)
    requires k < |l.queued| == |l.left| && l.queued[k] != []
    ensures Accounted(Shift(l, k)) + multiset{l.queued[k][0].0} == Accounted(l)
  {
    hide Queued, Dropped, Delivered;
    var p, rest := l.queued[k][0].0, PacketsOf(l.queued[k][1..]);
    QueuedUpdate(l.queued, k, l.queued[k][1..]);
    assert Queued(Shift(l, k).queued) + (multiset{p} + rest) == (Queued(Shift(l, k).queued) + multiset{p}) + rest;
    SameSums(Queued(Shift(l, k).queued) + multiset{p}, Queued(l.queued), rest);
  }

  /** recv accounts for a packet of known destination once, and leaves it no more hops to go than it had. */
  lemma ReceivedEffect(c: Config, l: Load, u: nat, pkt: Packet, vtime: real, m: Load)
    requires Orderly(c, l) && u in c.vertices && Received(c, l, u, pkt, vtime, m)
    ensures Orderly(c, m)
    ensures Accounted(m) == Accounted(l) + if DestOf(c.nodes, pkt).Some? then multiset{pkt} else multiset{}
    ensures Work(c, m.queued, 0) <= Work(c, l.queued, 0) + Remaining(c, u, pkt)
    ensures Gains(c, u, l, m)
  {
    hide Work, Accounted, Remaining, TxTime, EnQ, Gains;
    match DestOf(c.nodes, pkt)
    case None => GainsNothing(c, u, l);
    case Some(d) =>
      if d == u {
        DeliverEffect(c, l, u, pkt);
      } else {
        var k: nat :| Enqueued(c, l, u, d, pkt, vtime, k, m);
        HopsZero(c.g, d);
        assert Forwards(c, k, pkt);
        EnQEffect(c, l, k, (pkt, TxTime(c.link[k], l.queued[k], pkt, vtime)));
        EnQGains(c, l, k, (pkt, TxTime(c.link[k], l.queued[k], pkt, vtime)));
      }
  }

  lemma DeliverEffect(c: Config, l: Load, u: nat, pkt: Packet)
    requires Orderly(c, l) && DestOf(c.nodes, pkt) == Some(u)
    ensures var m := Deliver(l, u, pkt);
      && Orderly(c, m) && Accounted(m) == Accounted(l) + multiset{pkt}
      && m.queued == l.queued && Gains(c, u, l, m)
  {
    hide Forwards, Sound;
    assert (l.delivered + [(u, pkt)])[..|l.delivered|] == l.delivered;
  }

  // What a step does to the order of the queues

  /** All that ever entered queue k, in order. */
  function Entered(l: Load, k: nat): seq<Item>
    requires k < |l.queued| == |l.left|
  {
    l.left[k] + l.queued[k]
  }

  /**
   * First in, first out: each queue has lost items at its front and gained items at its end only, and what was dropped
   * or delivered stays so.
   */
  ghost predicate Follows(l: Load, m: Load) {
    && Fits(l, |l.queued|) && Fits(m, |l.queued|)
    && (forall k :: 0 <= k < |l.queued| ==> l.left[k] <= m.left[k] && Entered(l, k) <= Entered(m, k))
    && (forall k :: 0 <= k < |l.queued| ==> l.dropped[k] <= m.dropped[k])
    && l.delivered <= m.delivered
  }

  lemma FollowsSame(l: Load)
    requires Fits(l, |l.queued|)
    ensures Follows(l, l)
  {}

  lemma FollowsJoins(l: Load, m: Load, n: Load)
    requires Follows(l, m) && Follows(m, n)
    ensures Follows(l, n)
  {
    hide Entered;
  }

  /** Only queues of router u have changed, and only at their ends; nothing at all if a packet was delivered. */
  ghost predicate Gains(c: Config, u: nat, l: Load, m: Load) {
    && Fits(l, |c.from|) && Fits(m, |c.from|) && m.left == l.left
    && (forall k :: 0 <= k < |c.from| ==>
         if c.from[k] == u then l.queued[k] <= m.queued[k] else l.queued[k] == m.queued[k])
    && (forall k :: 0 <= k < |c.from| ==> l.dropped[k] <= m.dropped[k])
    && l.delivered <= m.delivered
    && (l.delivered != m.delivered ==> l.queued == m.queued)
  }

  lemma GainsNothing(c: Config, u: nat, l: Load)
    requires Orderly(c, l)
    ensures Gains(c, u, l, l)
  {}

  lemma EnQGains(c: Config, l: Load, k: nat, i: Item)
    requires Fits(l, |c.from|) && |c.from| == |c.link| && k < |c.from|
    ensures Gains(c, c.from[k], l, EnQ(l, k, c.link[k].max, i))
  {}

  lemma GainsFollows(c: Config, u: nat, l: Load, m: Load)
    requires Gains(c, u, l, m)
    ensures Follows(l, m)
  {}

  lemma ShiftFollows(l: Load, k: nat)
    requires Fits(l, |l.queued|) && k < |l.queued| && l.queued[k] != []
    ensures Follows(l, Shift(l, k))
  {
    assert Entered(Shift(l, k), k) == Entered(l, k);
  }

  /** Router u's own queues only lose packets at the front, all others only gain packets at the end. */
  ghost predicate InOrder(c: Config, u: nat, l: Load, m: Load) {
    && |l.queued| == |m.queued| == |c.from|
    && forall k :: 0 <= k < |c.from| ==>
      if c.from[k] == u then IsSuffix(m.queued[k], l.queued[k]) else l.queued[k] <= m.queued[k]
  }

  /** Of the queues of its router, queue k alone has changed. */
  ghost predicate OthersStay(c: Config, k: nat, l: Load, m: Load) {
    && |l.queued| == |m.queued| == |c.from| && k < |c.from|
    && forall j :: 0 <= j < |c.from| && c.from[j] == c.from[k] && j != k ==> m.queued[j] == l.queued[j]
  }

  ghost predicate IsSuffix(s: seq<Item>, t: seq<Item>) {
    |s| <= |t| && s == t[|t| - |s|..]
  }

  lemma InOrderSame(c: Config, u: nat, l: Load)
    requires Orderly(c, l)
    ensures InOrder(c, u, l, l) && Follows(l, l)
  {}

  lemma InOrderJoins(c: Config, u: nat, l: Load, m: Load, n: Load)
    requires InOrder(c, u, l, m) && InOrder(c, u, m, n)
    ensures InOrder(c, u, l, n)
  {}

  lemma OthersStayJoins(c: Config, k: nat, l: Load, m: Load, n: Load)
    requires OthersStay(c, k, l, m) && OthersStay(c, k, m, n)
    ensures OthersStay(c, k, l, n)
  {}

  /** A packet that leaves queue k enters, if any, a queue of the router at the other end, which is another one. */
  lemma HopIsInOrder(c: Config, l: Load, k: nat, n: Load)
    requires Orderly(c, l) && k < |c.from| && l.queued[k] != []
    requires Gains(c, c.to[k], Shift(l, k), n)
    ensures InOrder(c, c.from[k], l, n) && OthersStay(c, k, l, n) && Follows(l, n)
    ensures forall j :: 0 <= j < |c.from| && c.from[j] != c.from[k] && n.queued[j] != l.queued[j] ==>
      c.from[j] == c.to[k] && n.delivered == l.delivered
  {
    assert Forwards(c, k, l.queued[k][0].0);
    ShiftFollows(l, k);
    GainsFollows(c, c.to[k], Shift(l, k), n);
    FollowsJoins(l, Shift(l, k), n);
  }

  /** One packet's hop: taken from queue k and received at the other end, it is one hop nearer or gone. */
  lemma HopEffect(c: Config, l: Load, k: nat, vtime: real, n: Load)
    requires Orderly(c, l) && k < |c.from| && l.queued[k] != []
    requires Received(c, Shift(l, k), c.to[k], l.queued[k][0].0, vtime, n)
    ensures Orderly(c, n) && Accounted(n) == Accounted(l)
    ensures InOrder(c, c.from[k], l, n) && OthersStay(c, k, l, n) && Follows(l, n)
    ensures Work(c, n.queued, 0) < Work(c, l.queued, 0)
    ensures forall j :: 0 <= j < |c.from| && c.from[j] != c.from[k] && n.queued[j] != l.queued[j] ==>
      c.from[j] == c.to[k] && n.delivered == l.delivered
  {
    hide Work, Accounted, Remaining, Received, Gains, InOrder, OthersStay, Follows;
    ShiftEffect(c, l, k);
    ReceivedEffect(c, Shift(l, k), c.to[k], l.queued[k][0].0, vtime, n);
    HopIsInOrder(c, l, k, n);
  }

  // When packets enter and leave

  /**
   * The packet joins a queue at time vtime: behind all others, and due once its link, after the latency, has had the
   * time to send the bytes waiting before it and its own.
   */
  ghost predicate JoinsQueue(link: Link, before: seq<Item>, pkt: Packet, vtime: real, after: seq<Item>) {
    && |after| == |before| + 1 && before == after[..|before|] && after[|before|].0 == pkt
    && (after[|before|].1 - link.latency - vtime) * link.rate as real == (Bytes(before) + pkt.length) as real
  }

  lemma TxTimeLaw(link: Link, items: seq<Item>, pkt: Packet, vtime: real)
    requires link.rate > 0
    ensures JoinsQueue(link, items, pkt, vtime, items + [(pkt, TxTime(link, items, pkt, vtime))])
  {
    hide Bytes;
    var r := link.rate as real;
    var a, b := pkt.length as real / r, Bytes(items) as real / r;
    NoBytes(items);
    DividedBack(pkt.length as real, r);
    DividedBack(Bytes(items) as real, r);
    assert (a + b) * r == a * r + b * r;
  }

  lemma NoBytes(items: seq<Item>)
    ensures items == [] ==> Bytes(items) == 0
  {}

  lemma DividedBack(x: real, r: real)
    requires r > 0.0
    ensures x / r * r == x
  {}

  /** Packets that join a queue at the same time leave one after the other, each as much later as its own bytes take. */
  lemma BurstIsSpaced(link: Link, queues: seq<seq<Item>>, pkts: seq<Packet>, vtime: real)
    requires link.rate > 0 && |queues| == |pkts| + 1
    requires forall j :: 0 <= j < |pkts| ==> JoinsQueue(link, queues[j], pkts[j], vtime, queues[j + 1])
    ensures forall j :: 1 <= j < |pkts| ==>
      && |queues[j + 1]| == |queues[j]| + 1 && queues[j] != []
      && (queues[j + 1][|queues[j]|].1 - queues[j][|queues[j]| - 1].1) * link.rate as real == pkts[j].length as real
      && queues[j][|queues[j]| - 1].1 <= queues[j + 1][|queues[j]|].1
  {
    hide JoinsQueue;
    forall j | 1 <= j < |pkts|
      ensures |queues[j + 1]| == |queues[j]| + 1 && queues[j] != []
      ensures (queues[j + 1][|queues[j]|].1 - queues[j][|queues[j]| - 1].1) * link.rate as real
        == pkts[j].length as real
      ensures queues[j][|queues[j]| - 1].1 <= queues[j + 1][|queues[j]|].1
    {
      assert JoinsQueue(link, queues[j - 1], pkts[j - 1], vtime, queues[j]);
      assert JoinsQueue(link, queues[j], pkts[j], vtime, queues[j + 1]);
      PairIsSpaced(link, queues[j - 1], pkts[j - 1], queues[j], pkts[j], queues[j + 1], vtime);
    }
  }

  lemma PairIsSpaced(link: Link, a: seq<Item>, p: Packet, b: seq<Item>, q: Packet, c: seq<Item>, vtime: real)
    requires link.rate > 0 && JoinsQueue(link, a, p, vtime, b) && JoinsQueue(link, b, q, vtime, c)
    ensures |c| == |b| + 1 && b != [] && |b| == |a| + 1
    ensures (c[|b|].1 - b[|b| - 1].1) * link.rate as real == q.length as real
    ensures b[|b| - 1].1 <= c[|b|].1
  {
    hide Bytes;
    assert b == a + [b[|a|]];
    BytesAppend(a, b[|a|]);
    var r, t, u := link.rate as real, b[|b| - 1].1, c[|b|].1;
    var x, y := t - link.latency - vtime, u - link.latency - vtime;
    assert x * r == (Bytes(a) + p.length) as real && y * r == (Bytes(b) + q.length) as real;
    assert (u - t) * r == y * r - x * r;
    NotNegative(u - t, r);
  }

  lemma NotNegative(d: real, r: real)
    requires r > 0.0 && d * r >= 0.0
    ensures d >= 0.0
  {}

  /** What recv at router u adds to a queue: the packet, in time. */
  ghost predicate Added(c: Config, l: Load, u: nat, pkt: Packet, vtime: real, m: Load) {
    && |l.queued| == |m.queued| == |c.from| == |c.link|
    && forall k :: 0 <= k < |c.from| && m.queued[k] != l.queued[k] ==>
      c.from[k] == u && JoinsQueue(c.link[k], l.queued[k], pkt, vtime, m.queued[k])
  }

  lemma ReceivedAdds(c: Config, l: Load, u: nat, pkt: Packet, vtime: real, m: Load)
    requires Sound(c) && Fits(l, |c.from|) && u in c.vertices && Received(c, l, u, pkt, vtime, m)
    ensures Added(c, l, u, pkt, vtime, m)
  {
    hide TxTime, JoinsQueue;
    match DestOf(c.nodes, pkt)
    case None =>
    case Some(d) =>
      if d != u {
        var k: nat :| Enqueued(c, l, u, d, pkt, vtime, k, m);
        TxTimeLaw(c.link[k], l.queued[k], pkt, vtime);
      }
  }

  /** The j-th of the items that entered a queue is due as it should be from some reading, behind items x to j - 1. */
  ghost predicate EntersOnTime(link: Link, items: seq<Item>, j: nat, from: nat, to: nat,
                               reading: nat -> real, lo: nat, hi: nat)
  {
    j < |items| && exists x: nat, i: nat :: EnteredAt(link, items, j, from, to, reading, lo, hi, x, i)
  }

  ghost predicate EnteredAt(link: Link, items: seq<Item>, j: nat, from: nat, to: nat,
                            reading: nat -> real, lo: nat, hi: nat, x: nat, i: nat)
  {
    && from <= x <= to && x <= j < |items| && lo <= i < hi
    && (items[j].1 - link.latency - reading(i)) * link.rate as real == Bytes(items[x..j + 1]) as real
  }

  /** The item was due at some reading. */
  ghost predicate LeavesOnTime(item: Item, reading: nat -> real, lo: nat, hi: nat) {
    exists i :: lo <= i < hi && item.1 <= reading(i)
  }

  /**
   * Between l and m, with the clock readings lo to hi - 1: whatever entered a queue is due once the link has sent all
   * that waited in the queue at one of these readings, and whatever left a queue was due at one of them.
   */
  ghost predicate Timed(c: Config, l: Load, m: Load, reading: nat -> real, lo: nat, hi: nat) {
    && Follows(l, m) && |l.queued| == |c.from| == |c.link|
    && (forall k, j :: 0 <= k < |c.from| && |Entered(l, k)| <= j < |Entered(m, k)| ==>
         EntersOnTime(c.link[k], Entered(m, k), j, |l.left[k]|, |m.left[k]|, reading, lo, hi))
    && (forall k, j :: 0 <= k < |c.from| && |l.left[k]| <= j < |m.left[k]| ==>
         LeavesOnTime(m.left[k][j], reading, lo, hi))
  }

  lemma TimedSame(c: Config, l: Load, reading: nat -> real, lo: nat, hi: nat)
    requires Orderly(c, l)
    ensures Timed(c, l, l, reading, lo, hi)
  {
    FollowsSame(l);
  }

  lemma StillEnters(link: Link, items: seq<Item>, j: nat, from: nat, to: nat, reading: nat -> real, lo: nat, hi: nat,
                    items': seq<Item>, from': nat, to': nat, lo': nat, hi': nat)
    requires EntersOnTime(link, items, j, from, to, reading, lo, hi) && items <= items'
    requires from' <= from && to <= to' && lo' <= lo && hi <= hi'
    ensures EntersOnTime(link, items', j, from', to', reading, lo', hi')
  {
    hide Bytes;
    var x: nat, i: nat :| EnteredAt(link, items, j, from, to, reading, lo, hi, x, i);
    assert items'[x..j + 1] == items[x..j + 1];
    assert EnteredAt(link, items', j, from', to', reading, lo', hi', x, i);
  }

  lemma StillLeaves(item: Item, reading: nat -> real, lo: nat, hi: nat, lo': nat, hi': nat)
    requires LeavesOnTime(item, reading, lo, hi) && lo' <= lo && hi <= hi'
    ensures LeavesOnTime(item, reading, lo', hi')
  {
    var i :| lo <= i < hi && item.1 <= reading(i);
    assert lo' <= i < hi';
  }

  lemma TimedJoins(c: Config, l: Load, m: Load, n: Load, reading: nat -> real, lo: nat, mid: nat, read: nat, hi: nat)
    requires Timed(c, l, m, reading, lo, mid) && Timed(c, m, n, reading, read, hi) && lo <= read && mid <= hi
    ensures Timed(c, l, n, reading, lo, hi)
  {
    hide Entered, EntersOnTime, LeavesOnTime;
    FollowsJoins(l, m, n);
    forall k, j | 0 <= k < |c.from| && |Entered(l, k)| <= j < |Entered(n, k)|
      ensures EntersOnTime(c.link[k], Entered(n, k), j, |l.left[k]|, |n.left[k]|, reading, lo, hi)
    {
      if j < |Entered(m, k)| {
        StillEnters(c.link[k], Entered(m, k), j, |l.left[k]|, |m.left[k]|, reading, lo, mid,
                    Entered(n, k), |l.left[k]|, |n.left[k]|, lo, hi);
      } else {
        StillEnters(c.link[k], Entered(n, k), j, |m.left[k]|, |n.left[k]|, reading, read, hi,
                    Entered(n, k), |l.left[k]|, |n.left[k]|, lo, hi);
      }
    }
    forall k, j | 0 <= k < |c.from| && |l.left[k]| <= j < |n.left[k]|
      ensures LeavesOnTime(n.left[k][j], reading, lo, hi)
    {
      if j < |m.left[k]| {
        assert n.left[k][j] == m.left[k][j];
        StillLeaves(m.left[k][j], reading, lo, mid, lo, hi);
      } else {
        StillLeaves(n.left[k][j], reading, read, hi, lo, hi);
      }
    }
  }

  /** recv at a clock reading is in time. */
  lemma ReceivedIsTimed(c: Config, l: Load, u: nat, pkt: Packet, reading: nat -> real, i: nat, hi: nat, m: Load)
    requires Orderly(c, l) && u in c.vertices && Received(c, l, u, pkt, reading(i), m) && i < hi
    ensures Timed(c, l, m, reading, i, hi)
  {
    hide Received, JoinsQueue, EntersOnTime;
    OrderlyShape(c, l);
    ReceivedAdds(c, l, u, pkt, reading(i), m);
    ReceivedEffect(c, l, u, pkt, reading(i), m);
    GainsFollows(c, u, l, m);
    forall k, j | 0 <= k < |c.from| && |Entered(l, k)| <= j < |Entered(m, k)|
      ensures EntersOnTime(c.link[k], Entered(m, k), j, |l.left[k]|, |m.left[k]|, reading, i, hi)
    {
      assert m.left == l.left;
      JoinedIsTimed(c.link[k], l.left[k], l.queued[k], pkt, m.queued[k], reading, i, hi, j);
    }
  }

  lemma JoinedIsTimed(link: Link, left: seq<Item>, before: seq<Item>, pkt: Packet, after: seq<Item>,
                      reading: nat -> real, i: nat, hi: nat, j: nat)
    requires JoinsQueue(link, before, pkt, reading(i), after) && |left + before| <= j < |left + after| && i < hi
    ensures EntersOnTime(link, left + after, j, |left|, |left|, reading, i, hi)
  {
    hide Bytes;
    var items := left + after;
    assert j == |left| + |before| && items[j] == after[|before|];
    assert after == before + [after[|before|]];
    BytesAppend(before, after[|before|]);
    assert items[|left|..j + 1] == after;
    assert EnteredAt(link, items, j, |left|, |left|, reading, i, hi, |left|, i);
  }

  /** Taking out a head that is due at a reading is in time. */
  lemma ShiftIsTimed(c: Config, l: Load, k: nat, reading: nat -> real, i: nat, hi: nat)
    requires Orderly(c, l) && k < |c.from| && l.queued[k] != [] && l.queued[k][0].1 <= reading(i) && i < hi
    ensures Timed(c, l, Shift(l, k), reading, i, hi)
  {
    ShiftFollows(l, k);
    assert Entered(Shift(l, k), k) == Entered(l, k);
  }

  // How long nothing happens

  /** The shorter of two waiting times, if there are any. */
  function Shorter(a: Option<real>, b: Option<real>): Option<real> {
    if a.Some? && !(b.Some? && b.value < a.value) then a else b
  }

  /** Readings lo to hi - 1 of the clock include one from which it is at least `wait` until `due`. */
  ghost predicate InTime(wait: Option<real>, due: real, reading: nat -> real, lo: nat, hi: nat) {
    wait.Some? && exists i :: lo <= i < hi && wait.value <= due - reading(i)
  }

  /** Readings lo to hi - 1 include one from which it is exactly `wait` until an item that entered a queue may leave. */
  ghost predicate Exact(l: Load, wait: real, reading: nat -> real, lo: nat, hi: nat) {
    && Fits(l, |l.queued|)
    && exists k, j, i ::
         0 <= k < |l.queued| && 0 <= j < |Entered(l, k)| && lo <= i < hi && wait == Entered(l, k)[j].1 - reading(i)
  }

  /**
   * How long the main loop may sleep: no longer than until any head of a queue may leave, and exactly as long as it
   * was, at one of the readings, until some packet was due.
   */
  ghost predicate SleepRight(l: Load, sleep: Option<real>, reading: nat -> real, lo: nat, hi: nat) {
    && (forall k :: 0 <= k < |l.queued| && l.queued[k] != [] ==> InTime(sleep, l.queued[k][0].1, reading, lo, hi))
    && (sleep.Some? ==> sleep.value > 0.0 && Exact(l, sleep.value, reading, lo, hi))
  }

  /** A shorter wait is in time too, and one reading of a range is one of a wider range. */
  lemma StillInTime(wait: Option<real>, due: real, reading: nat -> real, lo: nat, hi: nat,
                    wait': Option<real>, lo': nat, hi': nat)
    requires InTime(wait, due, reading, lo, hi) && lo' <= lo && hi <= hi'
    requires wait'.Some? && wait'.value <= wait.value
    ensures InTime(wait', due, reading, lo', hi')
  {
    var i :| lo <= i < hi && wait.value <= due - reading(i);
    assert lo' <= i < hi' && wait'.value <= due - reading(i);
  }

  lemma StillExact(l: Load, m: Load, wait: real, reading: nat -> real, lo: nat, hi: nat, lo': nat, hi': nat)
    requires Exact(l, wait, reading, lo, hi) && Follows(l, m) && lo' <= lo && hi <= hi'
    ensures Exact(m, wait, reading, lo', hi')
  {
    hide Entered;
    var k, j, i :|
      0 <= k < |l.queued| && 0 <= j < |Entered(l, k)| && lo <= i < hi && wait == Entered(l, k)[j].1 - reading(i);
    assert Entered(l, k) <= Entered(m, k);
    assert Entered(m, k)[j] == Entered(l, k)[j] && lo' <= i < hi';
  }

  lemma SleepRightWidens(l: Load, sleep: Option<real>, reading: nat -> real, lo: nat, hi: nat, lo': nat)
    requires SleepRight(l, sleep, reading, lo, hi) && lo' <= lo && Fits(l, |l.queued|)
    ensures SleepRight(l, sleep, reading, lo', hi)
  {
    hide InTime, Exact, Follows;
    forall k | 0 <= k < |l.queued| && l.queued[k] != [] ensures InTime(sleep, l.queued[k][0].1, reading, lo', hi) {
      SomeInTime(sleep, l.queued[k][0].1, reading, lo, hi);
      StillInTime(sleep, l.queued[k][0].1, reading, lo, hi, sleep, lo', hi);
    }
    if sleep.Some? {
      FollowsSame(l);
      StillExact(l, l, sleep.value, reading, lo, hi, lo', hi);
    }
  }

  lemma SomeInTime(wait: Option<real>, due: real, reading: nat -> real, lo: nat, hi: nat)
    requires InTime(wait, due, reading, lo, hi)
    ensures wait.Some?
  {}

  /**
   * The least of the times until the heads of some queues may leave, each counted from the clock reading that `at`
   * gives for its queue; none if all of them are empty.
   */
  ghost predicate Least(l: Load, at: map<nat, nat>, reading: nat -> real, wait: Option<real>) {
    && (forall k :: k in at ==> k < |l.queued|)
    && (forall k :: k in at && l.queued[k] != [] ==> wait.Some? && wait.value <= l.queued[k][0].1 - reading(at[k]))
    && (wait.Some? ==> exists k :: k in at && l.queued[k] != [] && wait.value == l.queued[k][0].1 - reading(at[k]))
  }

  /** The least wait over some queues is in time for each of them, and exact. */
  lemma LeastIsRight(l: Load, at: map<nat, nat>, reading: nat -> real, wait: Option<real>, lo: nat, hi: nat)
    requires Least(l, at, reading, wait) && Fits(l, |l.queued|) && forall k :: k in at ==> lo <= at[k] < hi
    ensures forall k :: k in at && l.queued[k] != [] ==> InTime(wait, l.queued[k][0].1, reading, lo, hi)
    ensures wait.Some? ==> Exact(l, wait.value, reading, lo, hi)
  {
    if wait.Some? {
      var k :| k in at && l.queued[k] != [] && wait.value == l.queued[k][0].1 - reading(at[k]);
      assert Entered(l, k)[|l.left[k]|] == l.queued[k][0];
    }
  }
}
