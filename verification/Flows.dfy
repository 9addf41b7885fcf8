/** Conservation at each router: packets move along the links only, and none comes or goes in between. */
module Flows {
  import opened Common
  import opened Topology
  import opened Traffic

  /** One entry for each queue of the network. */
  ghost predicate Shaped(c: Config, l: Load) {
    Fits(l, |c.from|) && |c.to| == |c.from|
  }

  /** How often queue i has taken or dropped p. */
  function Taken(l: Load, p: Packet, i: nat): nat
    requires i < |l.queued| == |l.left| == |l.dropped|
  {
    PacketsOf(l.left[i])[p] + PacketsOf(l.queued[i])[p] + multiset(l.dropped[i])[p]
  }

  /** How often the queues of router u, from queue i on, have taken or dropped p. */
  ghost function Handled(c: Config, l: Load, u: nat, p: Packet, i: nat): nat
    requires Shaped(c, l)
    decreases |c.from| - i
  {
    if i >= |c.from| then 0
    else (if c.from[i] == u then Taken(l, p, i) else 0) + Handled(c, l, u, p, i + 1)
  }

  /** How often p has left those of the queues from queue i on that lead to router u. */
  ghost function Came(c: Config, l: Load, u: nat, p: Packet, i: nat): nat
    requires Shaped(c, l)
    decreases |c.from| - i
  {
    if i >= |c.from| then 0
    else (if c.to[i] == u then PacketsOf(l.left[i])[p] else 0) + Came(c, l, u, p, i + 1)
  }

  /** How often router u has delivered p. */
  function Delivers(l: Load, u: nat, p: Packet): nat {
    multiset(l.delivered)[(u, p)]
  }

  /**
   * Between l and m router u has queued, dropped or delivered p exactly as often as p has come to u over a link, and
   * `e` times more.
   */
  ghost predicate FlowAt(c: Config, l: Load, m: Load, u: nat, p: Packet, e: nat)
    requires Shaped(c, l) && Shaped(c, m)
  {
    Handled(c, m, u, p, 0) + Delivers(m, u, p) + Came(c, l, u, p, 0)
      == Handled(c, l, u, p, 0) + Delivers(l, u, p) + Came(c, m, u, p, 0) + e
  }

  /** The same of every router and packet, when `entered` tells which packets came to which router from outside. */
  ghost predicate Flow(c: Config, l: Load, m: Load, entered: multiset<(nat, Packet)>) {
    && Shaped(c, l) && Shaped(c, m)
    && forall u, p :: u in c.vertices ==> FlowAt(c, l, m, u, p, entered[(u, p)])
  }

  lemma FlowSame(c: Config, l: Load)
    requires Orderly(c, l)
    ensures Flow(c, l, l, multiset{})
  {}

  lemma FlowJoins(c: Config, l: Load, m: Load, n: Load, a: multiset<(nat, Packet)>, b: multiset<(nat, Packet)>)
    requires Flow(c, l, m, a) && Flow(c, m, n, b)
    ensures Flow(c, l, n, a + b)
  {
    hide Shaped, Handled, Came;
    forall u, p | u in c.vertices ensures FlowAt(c, l, n, u, p, (a + b)[(u, p)]) {
      assert FlowAt(c, l, m, u, p, a[(u, p)]) && FlowAt(c, m, n, u, p, b[(u, p)]);
    }
  }

  /** After a stretch in which nothing entered. */
  lemma FlowGoesOn(c: Config, l: Load, m: Load, n: Load, a: multiset<(nat, Packet)>)
    requires Flow(c, l, m, a) && Flow(c, m, n, multiset{})
    ensures Flow(c, l, n, a)
  {
    hide Flow;
    FlowJoins(c, l, m, n, a, multiset{});
    assert a + multiset{} == a;
  }

  /** A change of one queue. */
  lemma {:induction false} OneQueue(c: Config, l: Load, m: Load, k: nat, u: nat, p: Packet, i: nat)
    requires Shaped(c, l) && Shaped(c, m) && k < |c.from|
    requires forall j :: 0 <= j < |c.from| && j != k ==>
      l.queued[j] == m.queued[j] && l.left[j] == m.left[j] && l.dropped[j] == m.dropped[j]
    ensures Handled(c, m, u, p, i) + (if i <= k && c.from[k] == u then Taken(l, p, k) else 0)
      == Handled(c, l, u, p, i) + (if i <= k && c.from[k] == u then Taken(m, p, k) else 0)
    ensures Came(c, m, u, p, i) + (if i <= k && c.to[k] == u then PacketsOf(l.left[k])[p] else 0)
      == Came(c, l, u, p, i) + (if i <= k && c.to[k] == u then PacketsOf(m.left[k])[p] else 0)
    decreases |c.from| - i
  {
    hide PacketsOf;
    if i < |c.from| {
      OneQueue(c, l, m, k, u, p, i + 1);
    }
  }

  /** Nothing but what was delivered has changed. */
  lemma SameQueues(c: Config, l: Load, m: Load, u: nat, p: Packet, i: nat)
    requires Shaped(c, l) && Shaped(c, m) && l.queued == m.queued && l.left == m.left && l.dropped == m.dropped
    ensures Handled(c, m, u, p, i) == Handled(c, l, u, p, i) && Came(c, m, u, p, i) == Came(c, l, u, p, i)
    decreases |c.from| - i
  {
    hide PacketsOf;
    if i < |c.from| {
      SameQueues(c, l, m, u, p, i + 1);
    }
  }

  lemma EnQTakes(l: Load, k: nat, max: nat, i: Item, p: Packet)
    requires k < |l.queued| == |l.left| == |l.dropped|
    ensures Taken(EnQ(l, k, max, i), p, k) == Taken(l, p, k) + if p == i.0 then 1 else 0
  {
    PacketsOfAppend(l.queued[k], i);
  }

  lemma ShiftTakes(l: Load, k: nat, p: Packet)
    requires k < |l.queued| == |l.left| == |l.dropped| && l.queued[k] != []
    ensures var m := Shift(l, k);
      && Taken(m, p, k) == Taken(l, p, k)
      && PacketsOf(m.left[k])[p] == PacketsOf(l.left[k])[p] + if p == l.queued[k][0].0 then 1 else 0
  {
    PacketsOfAppend(l.left[k], l.queued[k][0]);
  }

  /** What recv at router u does at router v: it disposes of the packet at u, once. */
  lemma ReceivedFlowsAt(c: Config, l: Load, u: nat, pkt: Packet, vtime: real, m: Load, v: nat, p: Packet)
    requires Sound(c) && Fits(l, |c.from|) && u in c.vertices && Received(c, l, u, pkt, vtime, m)
    ensures Shaped(c, m) && Came(c, m, v, p, 0) == Came(c, l, v, p, 0)
    ensures Handled(c, m, v, p, 0) + Delivers(m, v, p) == Handled(c, l, v, p, 0) + Delivers(l, v, p)
      + if DestOf(c.nodes, pkt).Some? && v == u && p == pkt then 1 else 0
  {
    hide PacketsOf, TxTime, Handled, Came, Taken, DestOf;
    match DestOf(c.nodes, pkt)
    case None =>
    case Some(d) =>
      if d == u {
        SameQueues(c, l, m, v, p, 0);
      } else {
        var k: nat :| Enqueued(c, l, u, d, pkt, vtime, k, m);
        OneQueue(c, l, m, k, v, p, 0);
        EnQTakes(l, k, c.link[k].max, (pkt, TxTime(c.link[k], l.queued[k], pkt, vtime)), p);
      }
  }

  /** A packet that recv takes at router u is one that entered there. */
  lemma ReceivedFlows(c: Config, l: Load, u: nat, pkt: Packet, vtime: real, m: Load)
    requires Orderly(c, l) && u in c.vertices && Received(c, l, u, pkt, vtime, m)
    ensures Flow(c, l, m, if DestOf(c.nodes, pkt).Some? then multiset{(u, pkt)} else multiset{})
  {
    hide Received, Handled, Came, Delivers, DestOf;
    OrderlyShape(c, l);
    ReceivedFlowsAt(c, l, u, pkt, vtime, m, u, pkt);
    var e := if DestOf(c.nodes, pkt).Some? then multiset{(u, pkt)} else multiset{};
    forall v, p | v in c.vertices ensures FlowAt(c, l, m, v, p, e[(v, p)]) {
      ReceivedFlowsAt(c, l, u, pkt, vtime, m, v, p);
    }
  }

  lemma HopFlowsAt(c: Config, l: Load, k: nat, vtime: real, m: Load, v: nat, p: Packet)
    requires Orderly(c, l) && k < |c.from| && l.queued[k] != []
    requires DestOf(c.nodes, l.queued[k][0].0).Some?
    requires Received(c, Shift(l, k), c.to[k], l.queued[k][0].0, vtime, m)
    ensures Shaped(c, m) && FlowAt(c, l, m, v, p, 0)
  {
    hide Received, Handled, Came, DestOf, Taken, PacketsOf;
    var s := Shift(l, k);
    ReceivedFlowsAt(c, s, c.to[k], l.queued[k][0].0, vtime, m, v, p);
    OneQueue(c, l, s, k, v, p, 0);
    ShiftTakes(l, k, p);
    assert s.delivered == l.delivered;
  }

  /** A hop is closed: the packet leaves one router's queue and the router at the other end disposes of it. */
  lemma HopFlows(c: Config, l: Load, k: nat, vtime: real, m: Load)
    requires Orderly(c, l) && k < |c.from| && l.queued[k] != []
    requires DestOf(c.nodes, l.queued[k][0].0).Some?
    requires Received(c, Shift(l, k), c.to[k], l.queued[k][0].0, vtime, m)
    ensures Flow(c, l, m, multiset{})
  {
    hide Received, FlowAt, DestOf, Shift;
    HopFlowsAt(c, l, k, vtime, m, 0, l.queued[k][0].0);
    forall v, p | v in c.vertices ensures FlowAt(c, l, m, v, p, multiset{}[(v, p)]) {
      HopFlowsAt(c, l, k, vtime, m, v, p);
    }
  }

  lemma {:induction false} NothingYet(c: Config, l: Load, u: nat, p: Packet, i: nat)
    requires Shaped(c, l)
    requires forall k :: 0 <= k < |c.from| ==> l.queued[k] == [] && l.left[k] == [] && l.dropped[k] == []
    ensures Handled(c, l, u, p, i) == 0 && Came(c, l, u, p, i) == 0
    decreases |c.from| - i
  {
    if i < |c.from| {
      NothingYet(c, l, u, p, i + 1);
    }
  }

  /**
   * From an empty network on, every router has queued, dropped and delivered a packet exactly as often as the packet
   * has come to it, over a link or from outside.
   */
  lemma FlowFromEmpty(c: Config, l: Load, m: Load, entered: multiset<(nat, Packet)>, u: nat, p: Packet)
    requires Flow(c, l, m, entered) && u in c.vertices && l.delivered == []
    requires forall k :: 0 <= k < |c.from| ==> l.queued[k] == [] && l.left[k] == [] && l.dropped[k] == []
    ensures Handled(c, m, u, p, 0) + Delivers(m, u, p) == Came(c, m, u, p, 0) + entered[(u, p)]
  {
    NothingYet(c, l, u, p, 0);
    assert FlowAt(c, l, m, u, p, entered[(u, p)]);
  }
}
