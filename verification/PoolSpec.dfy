/** The upload side: four senders, the flags and the counter of bt_responser_t, and the dispatch of peer.c to them. */
module PoolSpec {
  import opened Common
  import opened SenderSpec
  import opened SenderProofs
  import SenderLaws
  import SenderRuns
  import Transfer

  /**
   * The global `senders` with `uploadingto`, `uploading_cnt` and `conn_cnt`, and for each sender the payloads it was
   * last filled with.
   */
  datatype Pool = Pool(
    senders: seq<Sender>, sources: seq<seq<seq<byte>>>, uploadingTo: seq<bool>, cnt: int, connCnt: int)

  /** Sender i is serving the peer. */
  predicate Serves(s: Sender, peer: int) { !s.isIdle && s.peer == peer }

  ghost predicate Served(senders: seq<Sender>, peer: int) {
    exists i :: 0 <= i < |senders| && Serves(senders[i], peer)
  }

  lemma ServedElsewhere(senders: seq<Sender>, k: nat, t: Sender, peer: int)
    requires k < |senders| && Served(senders, peer)
    requires Serves(senders[k], peer) ==> Serves(t, peer)
    ensures Served(senders[k := t], peer)
  {
    var i :| 0 <= i < |senders| && Serves(senders[i], peer);
    assert Serves(senders[k := t][i], peer);
  }

  lemma ServedNow(senders: seq<Sender>, k: nat, peer: int)
    requires k < |senders| && Serves(senders[k], peer)
    ensures Served(senders, peer)
  {}

  function CountTrue(s: seq<bool>, i: nat): nat
    decreases |s| - i
  {
    if i >= |s| then 0 else (if s[i] then 1 else 0) + CountTrue(s, i + 1)
  }

  function CountBusy(s: seq<Sender>, i: nat): nat
    decreases |s| - i
  {
    if i >= |s| then 0 else (if s[i].isIdle then 0 else 1) + CountBusy(s, i + 1)
  }

  ghost predicate PoolShaped(p: Pool, clks: seq<Clock>) {
    && |p.senders| == |p.sources| == |clks| == MAX_UPLOAD && |p.uploadingTo| == MAX_PEERS
    && forall i :: 0 <= i < MAX_UPLOAD ==> Steady(clks[i])
  }

  /**
   * Flags, counter and senders agree: each flagged peer has one sender of its own, and each busy sender a flagged
   * peer.
   */
  ghost predicate Agree(p: Pool)
    requires |p.senders| == MAX_UPLOAD && |p.uploadingTo| == MAX_PEERS
  {
    && (forall i :: 0 <= i < MAX_UPLOAD && !p.senders[i].isIdle ==>
         0 <= p.senders[i].peer < MAX_PEERS && p.uploadingTo[p.senders[i].peer])
    && (forall i, j :: 0 <= i < j < MAX_UPLOAD && !p.senders[i].isIdle && !p.senders[j].isIdle ==>
         p.senders[i].peer != p.senders[j].peer)
    && (forall q :: 0 <= q < MAX_PEERS && p.uploadingTo[q] ==> Served(p.senders, q))
    && p.cnt == CountTrue(p.uploadingTo, 0) == CountBusy(p.senders, 0)
  }

  ghost predicate PoolInv(p: Pool, maxConn: int, clks: seq<Clock>) {
    && PoolShaped(p, clks)
    && Agree(p)
    && p.cnt <= (if maxConn > 0 then maxConn else 0) && p.cnt <= MAX_UPLOAD
    && forall i :: 0 <= i < MAX_UPLOAD && !p.senders[i].isIdle ==> Open(p.senders[i], p.sources[i], clks[i])
  }

  /** responser_connection_closed: the first sender serving the peer, from i on, is released. */
  function ReleaseFirst(senders: seq<Sender>, peer: int, i: nat): (r: seq<Sender>)
    ensures |r| == |senders|
    decreases |senders| - i
  {
    if i >= |senders| then senders
    else if Serves(senders[i], peer) then senders[i := senders[i].(isIdle := true)]
    else ReleaseFirst(senders, peer, i + 1)
  }

  function ConnectionClosed(p: Pool, peer: nat): (q: Pool)
    requires peer < |p.uploadingTo|
  {
    if !p.uploadingTo[peer] then p
    else p.(uploadingTo := p.uploadingTo[peer := false], cnt := p.cnt - 1, senders := ReleaseFirst(p.senders, peer, 0))
  }

  function FirstIdle(senders: seq<Sender>, i: nat): (r: Option<nat>)
    ensures r.Some? ==> i <= r.value < |senders| && senders[r.value].isIdle
    ensures r.None? ==> forall k :: i <= k < |senders| ==> !senders[k].isIdle
    decreases |senders| - i
  {
    if i >= |senders| then None else if senders[i].isIdle then Some(i) else FirstIdle(senders, i + 1)
  }

  /** send_chunk, on the contents read from the chunk file: the new state and the return value. */
  ghost function SendChunk(p: Pool, peer: nat, chunk: seq<byte>, maxConn: int, clks: seq<Clock>): (Pool, int)
    requires PoolShaped(p, clks) && peer < MAX_PEERS && |chunk| == CHUNK_SIZE
  {
    if p.uploadingTo[peer] || p.cnt >= maxConn then (p, -1) else Take(p, peer, chunk, clks)
  }

  /** send_chunk past its two checks: the first idle sender, if any, is initialised and filled. */
  ghost function Take(p: Pool, peer: nat, chunk: seq<byte>, clks: seq<Clock>): (Pool, int)
    requires PoolShaped(p, clks) && peer < MAX_PEERS && |chunk| == CHUNK_SIZE
  {
    match FirstIdle(p.senders, 0)
    case None => (p, -1)
    case Some(k) =>
      var src := Transfer.Blocks(chunk);
      var s := Filled(p.senders[k].(peer := peer), p.connCnt + 1, src, clks[k]);
      (p.(senders := p.senders[k := s], sources := p.sources[k := src], connCnt := p.connCnt + 1,
          uploadingTo := p.uploadingTo[peer := true], cnt := p.cnt + 1), 0)
  }

  /** init_sender followed by the whole fill. */
  ghost function Filled(s: Sender, id: int, src: seq<seq<byte>>, clk: Clock): (t: Sender)
    requires Steady(clk) && |src| == BUFFER_LEN
    ensures Open(t, src, clk)
  {
    SenderRuns.Fresh(s, id, src, clk)
  }

  /** The outcome of a handler of sender i, with the connection closed if the handler asked for it. */
  function Settle(p: Pool, i: nat, o: Outcome): Pool
    requires i < |p.senders| && |p.uploadingTo| == MAX_PEERS && 0 <= p.senders[i].peer < MAX_PEERS
  {
    var q := p.(senders := p.senders[i := o.s]);
    if o.closed then ConnectionClosed(q, p.senders[i].peer) else q
  }

  /** The handlers change a connection's window and buffer, not whom it serves. */
  lemma AckKeepsPeer(s: Sender, n: u32, clk: Clock)
    requires Started(s)
    ensures CtlUdpAck(s, n, clk).s.peer == s.peer && CtlUdpAck(s, n, clk).s.isIdle == s.isIdle
  {
    hide DuplicateAck, WdAck, ShiftHead, SendWindow;
    var taken := TakeAck(s, n, clk);
    if taken.Some? {
      TakeAckKeepsBuffer(s, n, clk);
      TakeAckKeepsPeer(s, n, clk);
      ShiftHeadKeepsPeer(taken.value, s.head, n, clk);
      ShiftHeadShape(taken.value, s.head, n, clk);
      var t := ShiftHead(taken.value, s.head, n, clk);
      SendWindowKeepsPeer(t, if s.head + s.windowSize < t.head then t.head else s.head + s.windowSize, clk);
    }
  }

  lemma TakeAckKeepsPeer(s: Sender, n: u32, clk: Clock)
    requires Started(s)
    ensures var t := TakeAck(s, n, clk); t.Some? ==> t.value.peer == s.peer && t.value.isIdle == s.isIdle
  {}

  lemma TimeOutKeepsPeer(s: Sender, clk: Clock)
    requires Started(s)
    ensures CtlUdpTimeOut(s, clk).s.peer == s.peer && CtlUdpTimeOut(s, clk).s.isIdle == s.isIdle
  {}

  lemma {:induction false} ShiftHeadKeepsPeer(s: Sender, i: nat, n: u32, clk: Clock)
    requires SenderSpec.Shaped(s, i)
    ensures var t := ShiftHead(s, i, n, clk); t.peer == s.peer && t.isIdle == s.isIdle
    decreases s.tail - i
  {
    if i < s.tail && s.buf[i].data.value.seqNum < n {
      ShiftHeadKeepsPeer(SenderSpec.Release(s, i, clk), i + 1, n, clk);
    }
  }

  lemma {:induction false} SendWindowKeepsPeer(s: Sender, i: nat, clk: Clock)
    requires |s.buf| == BUFFER_LEN && s.tail <= BUFFER_LEN
    ensures var t := SendWindow(s, i, clk); t.peer == s.peer && t.isIdle == s.isIdle
    decreases s.tail - i
  {
    if i < s.tail && i - s.head < s.windowSize {
      SendWindowKeepsPeer(if s.buf[i].data.Some? then CtlSend(s, i, clk) else s, i + 1, clk);
    }
  }

  // Steps keep the pool's invariant

  lemma {:induction false} CountTrueFlips(s: seq<bool>, k: nat, i: nat)
    requires k < |s|
    ensures CountTrue(s[k := !s[k]], i) == CountTrue(s, i) + if i > k then 0 else if s[k] then -1 else 1
    decreases |s| - i
  {
    if i < |s| {
      CountTrueFlips(s, k, i + 1);
    }
  }

  lemma {:induction false} CountBusyUpdate(s: seq<Sender>, k: nat, t: Sender, i: nat)
    requires k < |s|
    ensures CountBusy(s[k := t], i)
      == CountBusy(s, i) + if i > k then 0 else (if t.isIdle then 0 else 1) - (if s[k].isIdle then 0 else 1)
    decreases |s| - i
  {
    if i < |s| {
      CountBusyUpdate(s, k, t, i + 1);
    }
  }

  lemma {:induction false} CountBusyAtMost(s: seq<Sender>, i: nat)
    requires i <= |s|
    ensures CountBusy(s, i) <= |s| - i
    ensures CountBusy(s, i) == |s| - i <==> forall k :: i <= k < |s| ==> !s[k].isIdle
    decreases |s| - i
  {
    if i < |s| {
      CountBusyAtMost(s, i + 1);
    }
  }

  /** Only sender k serves its peer, so it is the one released. */
  lemma {:induction false} ReleaseFinds(s: seq<Sender>, k: nat, i: nat)
    requires i <= k < |s| && !s[k].isIdle
    requires forall j :: 0 <= j < |s| && j != k ==> !Serves(s[j], s[k].peer)
    ensures ReleaseFirst(s, s[k].peer, i) == s[k := s[k].(isIdle := true)]
    decreases |s| - i
  {
    if i < k {
      ReleaseFinds(s, k, i + 1);
    }
  }

  lemma CloseKeepsAgree(p: Pool, k: nat)
    requires |p.senders| == MAX_UPLOAD && |p.uploadingTo| == MAX_PEERS && Agree(p) && k < MAX_UPLOAD
    requires !p.senders[k].isIdle
    ensures var q := ConnectionClosed(p, p.senders[k].peer);
      && q == p.(uploadingTo := q.uploadingTo, cnt := p.cnt - 1,
                 senders := p.senders[k := p.senders[k].(isIdle := true)])
      && |q.uploadingTo| == MAX_PEERS && Agree(q)
  {
    var s, peer := p.senders[k], p.senders[k].peer;
    ReleaseFinds(p.senders, k, 0);
    CountTrueFlips(p.uploadingTo, peer, 0);
    CountBusyUpdate(p.senders, k, s.(isIdle := true), 0);
    var q := ConnectionClosed(p, peer);
    forall r | 0 <= r < MAX_PEERS && q.uploadingTo[r] ensures Served(q.senders, r) {
      ServedElsewhere(p.senders, k, s.(isIdle := true), r);
    }
  }

  lemma UpdateKeepsAgree(p: Pool, k: nat, t: Sender)
    requires |p.senders| == MAX_UPLOAD && |p.uploadingTo| == MAX_PEERS && Agree(p) && k < MAX_UPLOAD
    requires t.isIdle == p.senders[k].isIdle && t.peer == p.senders[k].peer
    ensures Agree(p.(senders := p.senders[k := t]))
  {
    hide CountTrue, CountBusy, Served;
    CountBusyUpdate(p.senders, k, t, 0);
    forall r | 0 <= r < MAX_PEERS && p.uploadingTo[r] ensures Served(p.senders[k := t], r) {
      ServedElsewhere(p.senders, k, t, r);
    }
  }

  /** A handler of a busy sender, with the closing it may ask for, keeps the pool's invariant. */
  lemma SettleKeeps(p: Pool, k: nat, o: Outcome, maxConn: int, clks: seq<Clock>)
    requires PoolInv(p, maxConn, clks) && k < MAX_UPLOAD && !p.senders[k].isIdle
    requires !o.s.isIdle && o.s.peer == p.senders[k].peer
    requires !o.closed ==> Open(o.s, p.sources[k], clks[k])
    ensures PoolInv(Settle(p, k, o), maxConn, clks)
    ensures var q := Settle(p, k, o);
      && (forall j :: 0 <= j < MAX_UPLOAD && j != k ==> q.senders[j] == p.senders[j])
      && (q.senders[k].isIdle <==> o.closed)
  {
    hide Open, Agree, ReleaseFirst;
    UpdateKeepsAgree(p, k, o.s);
    if o.closed {
      CloseKeepsAgree(p.(senders := p.senders[k := o.s]), k);
    }
  }

  lemma FilledServes(s: Sender, id: int, src: seq<seq<byte>>, clk: Clock)
    requires Steady(clk) && |src| == BUFFER_LEN
    ensures var t := Filled(s, id, src, clk); t.peer == s.peer && t.id == id && !t.isIdle
  {
    InitIsSane(s, id, src, clk);
    FillKeepsPeer(InitSender(s, id, clk), src, clk);
  }

  lemma {:induction false} FillKeepsPeer(s: Sender, src: seq<seq<byte>>, clk: Clock)
    requires Steady(clk) && Sane(s, src, clk)
    ensures SenderRuns.FillFrom(s, src, clk).peer == s.peer && SenderRuns.FillFrom(s, src, clk).id == s.id
    decreases BUFFER_LEN - s.tail
  {
    hide RttAmongSamples, Live;
    if s.tail < BUFFER_LEN {
      CtlUdpSendKeepsSane(s, src, clk);
      FillKeepsPeer(CtlUdpSend(s, Data(s.tail, src[s.tail]), clk), src, clk);
    }
  }

  /** One GET: a flagged peer, a full pool or no idle sender changes nothing; otherwise one idle sender is taken. */
  lemma SendChunkKeeps(p: Pool, peer: nat, chunk: seq<byte>, maxConn: int, clks: seq<Clock>)
    requires PoolInv(p, maxConn, clks) && peer < MAX_PEERS && |chunk| == CHUNK_SIZE
    ensures var (q, ret) := SendChunk(p, peer, chunk, maxConn, clks);
      && PoolInv(q, maxConn, clks)
      && (ret == 0 <==> !p.uploadingTo[peer] && p.cnt < maxConn && p.cnt < MAX_UPLOAD)
      && (ret != 0 ==> q == p)
      && (ret == 0 ==> q.uploadingTo == p.uploadingTo[peer := true])
  {
    hide Open, Agree, Filled, FirstIdle, CountTrue, CountBusy, Transfer.Blocks;
    ProperCount(p);
    CountBusyAtMost(p.senders, 0);
    if !p.uploadingTo[peer] && p.cnt < maxConn && FirstIdle(p.senders, 0).Some? {
      var k := FirstIdle(p.senders, 0).value;
      var t := Filled(p.senders[k].(peer := peer), p.connCnt + 1, Transfer.Blocks(chunk), clks[k]);
      FilledServes(p.senders[k].(peer := peer), p.connCnt + 1, Transfer.Blocks(chunk), clks[k]);
      TakeKeepsAgree(p, SendChunk(p, peer, chunk, maxConn, clks).0, k, t, peer);
      CountBusyAtMost(p.senders[k := t], 0);
      ProperCount(SendChunk(p, peer, chunk, maxConn, clks).0);
    }
  }

  lemma ProperCount(p: Pool)
    requires |p.senders| == MAX_UPLOAD && |p.uploadingTo| == MAX_PEERS && Agree(p)
    ensures p.cnt == CountBusy(p.senders, 0)
  {}

  /** An idle sender taken for an unflagged peer keeps flags, counter and senders in agreement. */
  lemma TakeKeepsAgree(p: Pool, q: Pool, k: nat, t: Sender, peer: nat)
    requires |p.senders| == MAX_UPLOAD && |p.uploadingTo| == MAX_PEERS && Agree(p)
    requires k < MAX_UPLOAD && peer < MAX_PEERS && !p.uploadingTo[peer] && p.senders[k].isIdle
    requires !t.isIdle && t.peer == peer
    requires q.senders == p.senders[k := t] && q.uploadingTo == p.uploadingTo[peer := true] && q.cnt == p.cnt + 1
    ensures Agree(q)
  {
    hide CountTrue, CountBusy, Served;
    CountTrueFlips(p.uploadingTo, peer, 0);
    CountBusyUpdate(p.senders, k, t, 0);
    ServedNow(q.senders, k, peer);
    forall r | 0 <= r < MAX_PEERS && q.uploadingTo[r] && r != peer ensures Served(q.senders, r) {
      ServedElsewhere(p.senders, k, t, r);
    }
  }

  // The dispatch loops of peer.c

  lemma InvShaped(p: Pool, maxConn: int, clks: seq<Clock>)
    requires PoolInv(p, maxConn, clks)
    ensures PoolShaped(p, clks)
  {}

  lemma BusyPeer(p: Pool, i: nat, maxConn: int, clks: seq<Clock>)
    requires PoolInv(p, maxConn, clks) && i < MAX_UPLOAD && !p.senders[i].isIdle
    ensures 0 <= p.senders[i].peer < MAX_PEERS
    ensures SenderSpec.Started(p.senders[i])
  {}

  /** A busy sender takes an ACK. */
  ghost function AckOne(p: Pool, n: u32, i: nat, maxConn: int, clks: seq<Clock>): (q: Pool)
    requires PoolInv(p, maxConn, clks) && i < MAX_UPLOAD && !p.senders[i].isIdle
    ensures PoolInv(q, maxConn, clks)
  {
    AckOneKeeps(p, n, i, maxConn, clks);
    Settle(p, i, CtlUdpAck(p.senders[i], n, clks[i]))
  }

  /** A busy sender looks for an overdue packet. */
  ghost function TickOne(p: Pool, i: nat, maxConn: int, clks: seq<Clock>): (q: Pool)
    requires PoolInv(p, maxConn, clks) && i < MAX_UPLOAD && !p.senders[i].isIdle
    ensures PoolInv(q, maxConn, clks)
  {
    TickOneKeeps(p, i, maxConn, clks);
    Settle(p, i, CtlUdpTimeOut(p.senders[i], clks[i]))
  }

  /** process_inbound_udp on an ACK, from sender i on: every busy sender of that peer takes it. */
  ghost function AckFrom(p: Pool, peer: nat, n: u32, i: nat, maxConn: int, clks: seq<Clock>): (q: Pool)
    requires PoolInv(p, maxConn, clks)
    ensures PoolInv(q, maxConn, clks)
    decreases MAX_UPLOAD - i
  {
    if i >= MAX_UPLOAD then p
    else if Serves(p.senders[i], peer) then AckFrom(AckOne(p, n, i, maxConn, clks), peer, n, i + 1, maxConn, clks)
    else AckFrom(p, peer, n, i + 1, maxConn, clks)
  }

  lemma AckOneKeeps(p: Pool, n: u32, i: nat, maxConn: int, clks: seq<Clock>)
    requires PoolInv(p, maxConn, clks) && i < MAX_UPLOAD && !p.senders[i].isIdle
    ensures Started(p.senders[i])
    ensures PoolInv(Settle(p, i, CtlUdpAck(p.senders[i], n, clks[i])), maxConn, clks)
  {
    AckKeepsOpen(p.senders[i], n, p.sources[i], clks[i]);
    AckKeepsPeer(p.senders[i], n, clks[i]);
    hide Open, CtlUdpAck;
    SettleKeeps(p, i, CtlUdpAck(p.senders[i], n, clks[i]), maxConn, clks);
  }

  /** The tick of peer_run, from sender i on: every busy sender looks for an overdue packet. */
  ghost function TickFrom(p: Pool, i: nat, maxConn: int, clks: seq<Clock>): (q: Pool)
    requires PoolInv(p, maxConn, clks)
    ensures PoolInv(q, maxConn, clks)
    decreases MAX_UPLOAD - i
  {
    if i >= MAX_UPLOAD then p
    else if !p.senders[i].isIdle then TickFrom(TickOne(p, i, maxConn, clks), i + 1, maxConn, clks)
    else TickFrom(p, i + 1, maxConn, clks)
  }

  lemma TickOneKeeps(p: Pool, i: nat, maxConn: int, clks: seq<Clock>)
    requires PoolInv(p, maxConn, clks) && i < MAX_UPLOAD && !p.senders[i].isIdle
    ensures Started(p.senders[i])
    ensures PoolInv(Settle(p, i, CtlUdpTimeOut(p.senders[i], clks[i])), maxConn, clks)
  {
    TickKeepsOpen(p.senders[i], p.sources[i], clks[i]);
    TimeOutKeepsPeer(p.senders[i], clks[i]);
    hide Open, CtlUdpTimeOut;
    SettleKeeps(p, i, CtlUdpTimeOut(p.senders[i], clks[i]), maxConn, clks);
  }

  // What the dispatch does to each sender

  /** The handlers can be called for every busy sender. */
  ghost predicate Handled(p: Pool) {
    forall k :: 0 <= k < |p.senders| && !p.senders[k].isIdle ==>
      Started(p.senders[k]) && SenderSpec.Shaped(p.senders[k], p.senders[k].head)
  }

  /**
   * What an ACK from the peer makes of the pool: the sender that serves the peer has taken it, and is idle exactly if
   * it covered the whole chunk; then the peer's flag and the count go down. Nothing else changes.
   */
  ghost predicate Acked(p: Pool, peer: nat, n: u32, clks: seq<Clock>, q: Pool)
    requires |p.senders| == |clks| == MAX_UPLOAD && |p.uploadingTo| == MAX_PEERS && Handled(p)
  {
    && |q.senders| == MAX_UPLOAD && q.sources == p.sources && q.connCnt == p.connCnt
    && (forall i :: 0 <= i < MAX_UPLOAD ==>
         q.senders[i] == if !p.senders[i].isIdle && p.senders[i].peer == peer
                         then CtlUdpAck(p.senders[i], n, clks[i]).s.(isIdle := n >= 1024)
                         else p.senders[i])
    && (if n >= 1024 && peer < MAX_PEERS && p.uploadingTo[peer]
        then q.uploadingTo == p.uploadingTo[peer := false] && q.cnt == p.cnt - 1
        else q.uploadingTo == p.uploadingTo && q.cnt == p.cnt)
  }

  lemma AckOneLaw(p: Pool, n: u32, i: nat, maxConn: int, clks: seq<Clock>)
    requires PoolInv(p, maxConn, clks) && i < MAX_UPLOAD && !p.senders[i].isIdle
    ensures PoolShaped(p, clks) && 0 <= p.senders[i].peer < MAX_PEERS
    ensures Started(p.senders[i])
    ensures var q, peer := AckOne(p, n, i, maxConn, clks), p.senders[i].peer;
      && q == p.(senders := p.senders[i := CtlUdpAck(p.senders[i], n, clks[i]).s.(isIdle := n >= 1024)],
                 uploadingTo := if n >= 1024 then p.uploadingTo[peer := false] else p.uploadingTo,
                 cnt := if n >= 1024 then p.cnt - 1 else p.cnt)
  {
    hide CtlUdpAck, Open, Agree, ConnectionClosed;
    OpenSender(p, i, maxConn, clks);
    BusyPeer(p, i, maxConn, clks);
    AckKeepsOpen(p.senders[i], n, p.sources[i], clks[i]);
    AckKeepsPeer(p.senders[i], n, clks[i]);
    var o := CtlUdpAck(p.senders[i], n, clks[i]);
    UpdateKeepsAgree(p, i, o.s);
    CloseLaw(p.(senders := p.senders[i := o.s]), i);
  }

  lemma OpenSender(p: Pool, i: nat, maxConn: int, clks: seq<Clock>)
    requires PoolInv(p, maxConn, clks) && i < MAX_UPLOAD && !p.senders[i].isIdle
    ensures Steady(clks[i]) && Open(p.senders[i], p.sources[i], clks[i])
  {
    hide Open, Agree;
  }

  /** Closing the connection of a busy sender makes it idle and takes back its peer's flag. */
  lemma CloseLaw(p: Pool, k: nat)
    requires |p.senders| == MAX_UPLOAD && |p.uploadingTo| == MAX_PEERS && Agree(p) && k < MAX_UPLOAD
    requires !p.senders[k].isIdle && 0 <= p.senders[k].peer < MAX_PEERS
    ensures ConnectionClosed(p, p.senders[k].peer)
         == p.(uploadingTo := p.uploadingTo[p.senders[k].peer := false], cnt := p.cnt - 1,
               senders := p.senders[k := p.senders[k].(isIdle := true)])
  {
    hide CountTrue, CountBusy, Served;
    ReleaseFinds(p.senders, k, 0);
  }

  /** Once the sender that serves the peer has taken the ACK, the others are passed over. */
  lemma {:induction false} AckPassesOver(p: Pool, peer: nat, n: u32, i: nat, maxConn: int, clks: seq<Clock>)
    requires PoolInv(p, maxConn, clks)
    requires forall k :: i <= k < MAX_UPLOAD ==> !Serves(p.senders[k], peer)
    ensures AckFrom(p, peer, n, i, maxConn, clks) == p
    decreases MAX_UPLOAD - i
  {
    hide PoolInv;
    InvShaped(p, maxConn, clks);
    if i < MAX_UPLOAD {
      AckPassesOver(p, peer, n, i + 1, maxConn, clks);
    }
  }

  lemma ServesOnce(p: Pool, i: nat, k: nat, peer: nat, maxConn: int, clks: seq<Clock>)
    requires PoolInv(p, maxConn, clks) && i < MAX_UPLOAD && k < MAX_UPLOAD && Serves(p.senders[i], peer)
    ensures Serves(p.senders[k], peer) ==> k == i
    ensures peer < MAX_PEERS && p.uploadingTo[peer]
  {
    hide Open, CountTrue, CountBusy, Served;
  }

  lemma {:induction false} AckReaches(p: Pool, peer: nat, n: u32, i: nat, maxConn: int, clks: seq<Clock>)
    requires PoolInv(p, maxConn, clks) && i <= MAX_UPLOAD
    requires forall k :: 0 <= k < i ==> !Serves(p.senders[k], peer)
    ensures PoolShaped(p, clks) && Handled(p)
    ensures Acked(p, peer, n, clks, AckFrom(p, peer, n, i, maxConn, clks))
    decreases MAX_UPLOAD - i
  {
    hide PoolInv, AckOne, CtlUdpAck;
    InvShaped(p, maxConn, clks);
    AllStarted(p, maxConn, clks);
    if i >= MAX_UPLOAD {
      NobodyServes(p, peer, maxConn, clks);
    } else if Serves(p.senders[i], peer) {
      var q := AckOne(p, n, i, maxConn, clks);
      AckOneLaw(p, n, i, maxConn, clks);
      forall k | 0 <= k < MAX_UPLOAD && k != i ensures !Serves(p.senders[k], peer) {
        ServesOnce(p, i, k, peer, maxConn, clks);
      }
      ServesOnce(p, i, i, peer, maxConn, clks);
      AckPassesOver(q, peer, n, i + 1, maxConn, clks);
    } else {
      AckReaches(p, peer, n, i + 1, maxConn, clks);
    }
  }

  lemma AllStarted(p: Pool, maxConn: int, clks: seq<Clock>)
    requires PoolInv(p, maxConn, clks)
    ensures PoolShaped(p, clks) && Handled(p)
  {
    forall k | 0 <= k < MAX_UPLOAD && !p.senders[k].isIdle
      ensures Started(p.senders[k]) && SenderSpec.Shaped(p.senders[k], p.senders[k].head)
    {
      BusyPeer(p, k, maxConn, clks);
    }
  }

  lemma NobodyServes(p: Pool, peer: nat, maxConn: int, clks: seq<Clock>)
    requires PoolInv(p, maxConn, clks)
    requires forall k :: 0 <= k < MAX_UPLOAD ==> !Serves(p.senders[k], peer)
    ensures |p.uploadingTo| == MAX_PEERS && (peer < MAX_PEERS ==> !p.uploadingTo[peer])
  {
    hide Open, CountTrue, CountBusy;
    assert peer < MAX_PEERS && p.uploadingTo[peer] ==> Served(p.senders, peer);
  }

  /**
   * What a tick makes of the pool: every busy sender has looked for an overdue packet once, and is idle exactly if its
   * connection closed; idle ones stay. The flags taken back are those of the peers whose connection closed.
   */
  ghost predicate Ticked(p: Pool, clks: seq<Clock>, i: nat, q: Pool)
    requires |p.senders| == |clks| == MAX_UPLOAD && |p.uploadingTo| == MAX_PEERS
    requires Handled(p)
  {
    && |q.senders| == MAX_UPLOAD && |q.uploadingTo| == MAX_PEERS && q.sources == p.sources && q.connCnt == p.connCnt
    && (forall k :: 0 <= k < MAX_UPLOAD ==>
         q.senders[k] == if k >= i && !p.senders[k].isIdle
                         then var o := CtlUdpTimeOut(p.senders[k], clks[k]); o.s.(isIdle := o.closed)
                         else p.senders[k])
    && (forall r :: 0 <= r < MAX_PEERS ==> (q.uploadingTo[r] <==> p.uploadingTo[r] && !GivenUp(p, clks, i, r)))
  }

  /** A busy sender that serves the peer, from i on, closes its connection at a tick. */
  ghost predicate GivenUp(p: Pool, clks: seq<Clock>, i: nat, peer: nat)
    requires |p.senders| == |clks| == MAX_UPLOAD
    requires Handled(p)
  {
    exists k :: i <= k < MAX_UPLOAD && Serves(p.senders[k], peer) && CtlUdpTimeOut(p.senders[k], clks[k]).closed
  }

  lemma TickOneLaw(p: Pool, i: nat, maxConn: int, clks: seq<Clock>)
    requires PoolInv(p, maxConn, clks) && i < MAX_UPLOAD && !p.senders[i].isIdle
    ensures PoolShaped(p, clks) && 0 <= p.senders[i].peer < MAX_PEERS
    ensures Started(p.senders[i])
    ensures var q, o, peer := TickOne(p, i, maxConn, clks), CtlUdpTimeOut(p.senders[i], clks[i]), p.senders[i].peer;
      && q == p.(senders := p.senders[i := o.s.(isIdle := o.closed)],
                 uploadingTo := if o.closed then p.uploadingTo[peer := false] else p.uploadingTo,
                 cnt := if o.closed then p.cnt - 1 else p.cnt)
  {
    hide CtlUdpTimeOut, Open, Agree, ConnectionClosed;
    OpenSender(p, i, maxConn, clks);
    BusyPeer(p, i, maxConn, clks);
    TimeOutKeepsPeer(p.senders[i], clks[i]);
    var o := CtlUdpTimeOut(p.senders[i], clks[i]);
    UpdateKeepsAgree(p, i, o.s);
    CloseLaw(p.(senders := p.senders[i := o.s]), i);
  }

  lemma {:induction false} TickReaches(p: Pool, i: nat, maxConn: int, clks: seq<Clock>)
    requires PoolInv(p, maxConn, clks) && i <= MAX_UPLOAD
    ensures PoolShaped(p, clks) && Handled(p)
    ensures Ticked(p, clks, i, TickFrom(p, i, maxConn, clks))
    decreases MAX_UPLOAD - i
  {
    hide PoolInv, TickOne, CtlUdpTimeOut, Ticked;
    AllStarted(p, maxConn, clks);
    if i >= MAX_UPLOAD {
      NothingTicked(p, clks, i);
    } else if !p.senders[i].isIdle {
      var q := TickOne(p, i, maxConn, clks);
      TickOneLaw(p, i, maxConn, clks);
      TickReaches(q, i + 1, maxConn, clks);
      forall k | 0 <= k < MAX_UPLOAD && k != i ensures !Serves(p.senders[k], p.senders[i].peer) {
        ServesOnce(p, i, k, p.senders[i].peer, maxConn, clks);
      }
      OneMoreTicked(p, clks, i, q, TickFrom(q, i + 1, maxConn, clks));
    } else {
      TickReaches(p, i + 1, maxConn, clks);
      IdleIsPassedOver(p, clks, i, TickFrom(p, i + 1, maxConn, clks));
    }
  }

  lemma NothingTicked(p: Pool, clks: seq<Clock>, i: nat)
    requires PoolShaped(p, clks) && Handled(p)
    requires i >= MAX_UPLOAD
    ensures Ticked(p, clks, i, p)
  {}

  lemma IdleIsPassedOver(p: Pool, clks: seq<Clock>, i: nat, r: Pool)
    requires PoolShaped(p, clks) && Handled(p)
    requires i < MAX_UPLOAD && p.senders[i].isIdle && Ticked(p, clks, i + 1, r)
    ensures Ticked(p, clks, i, r)
  {
    hide CtlUdpTimeOut;
    forall q | 0 <= q < MAX_PEERS ensures GivenUp(p, clks, i, q) <==> GivenUp(p, clks, i + 1, q) {}
  }

  lemma OneMoreTicked(p: Pool, clks: seq<Clock>, i: nat, q: Pool, r: Pool)
    requires PoolShaped(p, clks) && Handled(p)
    requires PoolShaped(q, clks) && Handled(q)
    requires i < MAX_UPLOAD && !p.senders[i].isIdle && 0 <= p.senders[i].peer < MAX_PEERS
    requires forall k :: 0 <= k < MAX_UPLOAD && k != i ==> !Serves(p.senders[k], p.senders[i].peer)
    requires var o, peer := CtlUdpTimeOut(p.senders[i], clks[i]), p.senders[i].peer;
      q == p.(senders := p.senders[i := o.s.(isIdle := o.closed)],
              uploadingTo := if o.closed then p.uploadingTo[peer := false] else p.uploadingTo,
              cnt := if o.closed then p.cnt - 1 else p.cnt)
    requires Ticked(q, clks, i + 1, r)
    ensures Ticked(p, clks, i, r)
  {
    hide CtlUdpTimeOut;
    forall x | 0 <= x < MAX_PEERS
      ensures GivenUp(p, clks, i, x) <==>
        GivenUp(q, clks, i + 1, x) || (x == p.senders[i].peer && CtlUdpTimeOut(p.senders[i], clks[i]).closed)
    {
      GivenUpStep(p, clks, i, q, x);
    }
  }

  lemma GivenUpStep(p: Pool, clks: seq<Clock>, i: nat, q: Pool, x: nat)
    requires PoolShaped(p, clks) && Handled(p)
    requires PoolShaped(q, clks) && Handled(q)
    requires i < MAX_UPLOAD && !p.senders[i].isIdle
    requires forall k :: i < k < MAX_UPLOAD ==> q.senders[k] == p.senders[k]
    ensures GivenUp(p, clks, i, x) <==>
      GivenUp(q, clks, i + 1, x) || (x == p.senders[i].peer && CtlUdpTimeOut(p.senders[i], clks[i]).closed)
  {
    hide CtlUdpTimeOut;
    if GivenUp(p, clks, i, x) {
      var k :| i <= k < MAX_UPLOAD && Serves(p.senders[k], x) && CtlUdpTimeOut(p.senders[k], clks[k]).closed;
      assert k > i ==> Serves(q.senders[k], x);
    }
    if GivenUp(q, clks, i + 1, x) {
      var k :| i + 1 <= k < MAX_UPLOAD && Serves(q.senders[k], x) && CtlUdpTimeOut(q.senders[k], clks[k]).closed;
      assert Serves(p.senders[k], x);
    }
    assert Serves(p.senders[i], p.senders[i].peer);
  }

  /**
   * What a GET that succeeds makes of the pool: the first idle sender serves the peer, with packet n the n-th block of
   * the chunk; all other senders stay.
   */
  ghost predicate Taken(p: Pool, peer: nat, chunk: seq<byte>, q: Pool)
    requires |p.senders| == MAX_UPLOAD && |p.uploadingTo| == MAX_PEERS && peer < MAX_PEERS && |chunk| == CHUNK_SIZE
  {
    && |q.senders| == MAX_UPLOAD && q.cnt == p.cnt + 1 && q.connCnt == p.connCnt + 1
    && q.uploadingTo == p.uploadingTo[peer := true]
    && exists k :: TakenBy(p, k, peer, chunk, q)
  }

  ghost predicate TakenBy(p: Pool, k: int, peer: nat, chunk: seq<byte>, q: Pool)
    requires |p.senders| == |q.senders| == MAX_UPLOAD && |chunk| == CHUNK_SIZE
  {
    && 0 <= k < MAX_UPLOAD && p.senders[k].isIdle && (forall j :: 0 <= j < k ==> !p.senders[j].isIdle)
    && (forall j :: 0 <= j < MAX_UPLOAD && j != k ==> q.senders[j] == p.senders[j])
    && var s := q.senders[k];
       && !s.isIdle && s.peer == peer && s.id == p.connCnt + 1 && s.head == 0 && s.tail == |s.buf| == 1024
       && forall n :: 0 <= n < 1024 ==> s.buf[n].data == Some(Data(n, chunk[512 * n..512 * n + 512]))
  }

  lemma GetLaw(p: Pool, peer: nat, chunk: seq<byte>, maxConn: int, clks: seq<Clock>)
    requires PoolInv(p, maxConn, clks) && peer < MAX_PEERS && |chunk| == CHUNK_SIZE
    ensures PoolShaped(p, clks)
    ensures var (q, ret) := SendChunk(p, peer, chunk, maxConn, clks);
      && (ret == 0 <==> !p.uploadingTo[peer] && p.cnt < maxConn && p.cnt < 4)
      && (if ret == 0 then Taken(p, peer, chunk, q) else ret == -1 && q == p)
  {
    hide PoolInv, Filled, FirstIdle, Transfer.Blocks;
    InvShaped(p, maxConn, clks);
    SendChunkKeeps(p, peer, chunk, maxConn, clks);
    if !p.uploadingTo[peer] && p.cnt < maxConn && FirstIdle(p.senders, 0).Some? {
      var k := FirstIdle(p.senders, 0).value;
      FilledHolds(p.senders[k].(peer := peer), p.connCnt + 1, chunk, clks[k]);
      FirstIdleIsFirst(p.senders, 0);
      assert TakenBy(p, k, peer, chunk, SendChunk(p, peer, chunk, maxConn, clks).0);
    }
  }

  lemma {:induction false} FirstIdleIsFirst(senders: seq<Sender>, i: nat)
    ensures var r := FirstIdle(senders, i); r.Some? ==> forall k :: i <= k < r.value ==> !senders[k].isIdle
    decreases |senders| - i
  {
    if i < |senders| && !senders[i].isIdle {
      FirstIdleIsFirst(senders, i + 1);
    }
  }

  lemma FilledHolds(s: Sender, id: int, chunk: seq<byte>, clk: Clock)
    requires Steady(clk) && |chunk| == CHUNK_SIZE
    ensures var t := Filled(s, id, Transfer.Blocks(chunk), clk);
      && !t.isIdle && t.peer == s.peer && t.id == id && t.head == 0 && t.tail == |t.buf| == 1024
      && forall n :: 0 <= n < 1024 ==> t.buf[n].data == Some(Data(n, chunk[512 * n..512 * n + 512]))
  {
    hide SenderRuns.Fresh;
    SenderLaws.FreshLaw(s, id, Transfer.Blocks(chunk), clk);
    forall n | 0 <= n < 1024 ensures Transfer.Blocks(chunk)[n] == chunk[512 * n..512 * n + 512] {
      assert Transfer.Blocks(chunk)[n] == Transfer.Block(chunk, n);
    }
  }

  // Whole runs

  datatype Event = GetEvent(peer: nat, chunk: seq<byte>) | AckEvent(peer: nat, ackNum: u32) | TickEvent

  ghost predicate Proper(e: Event) {
    match e
    case GetEvent(p, chunk) => p < MAX_PEERS && |chunk| == CHUNK_SIZE
    case AckEvent(p, _) => p < MAX_PEERS
    case TickEvent => true
  }

  ghost function Step(p: Pool, e: Event, maxConn: int, clks: seq<Clock>): (q: Pool)
    requires PoolInv(p, maxConn, clks) && Proper(e)
    ensures PoolInv(q, maxConn, clks)
  {
    match e
    case GetEvent(peer, chunk) =>
      SendChunkKeeps(p, peer, chunk, maxConn, clks);
      SendChunk(p, peer, chunk, maxConn, clks).0
    case AckEvent(peer, n) => AckFrom(p, peer, n, 0, maxConn, clks)
    case TickEvent => TickFrom(p, 0, maxConn, clks)
  }

  /** The pool as init_responser and peer_run leave it: no flag set, every sender idle. */
  ghost predicate Initial(p: Pool, clks: seq<Clock>) {
    && PoolShaped(p, clks)
    && (forall i :: 0 <= i < MAX_UPLOAD ==> p.senders[i].isIdle)
    && (forall q :: 0 <= q < MAX_PEERS ==> !p.uploadingTo[q])
    && p.cnt == 0
  }

  lemma InitialIsInv(p: Pool, maxConn: int, clks: seq<Clock>)
    requires Initial(p, clks)
    ensures PoolInv(p, maxConn, clks)
  {
    NoneTrue(p.uploadingTo, 0);
    NoneBusy(p.senders, 0);
  }

  lemma {:induction false} NoneTrue(s: seq<bool>, i: nat)
    requires forall k :: 0 <= k < |s| ==> !s[k]
    ensures CountTrue(s, i) == 0
    decreases |s| - i
  {
    if i < |s| {
      NoneTrue(s, i + 1);
    }
  }

  lemma {:induction false} NoneBusy(s: seq<Sender>, i: nat)
    requires forall k :: 0 <= k < |s| ==> s[k].isIdle
    ensures CountBusy(s, i) == 0
    decreases |s| - i
  {
    if i < |s| {
      NoneBusy(s, i + 1);
    }
  }

  ghost function Run(p: Pool, es: seq<Event>, maxConn: int, clks: seq<Clock>): (q: Pool)
    requires PoolInv(p, maxConn, clks) && forall k :: 0 <= k < |es| ==> Proper(es[k])
    ensures PoolInv(q, maxConn, clks)
    decreases |es|
  {
    if es == [] then p else Run(Step(p, es[0], maxConn, clks), es[1..], maxConn, clks)
  }

  /**
   * In every reachable state: a peer is flagged exactly if one sender, and only one, serves it; the counter counts
   * both and respects both limits; and every busy sender is an open connection filled with a whole chunk.
   */
  lemma PoolIsBijection(p: Pool, es: seq<Event>, maxConn: int, clks: seq<Clock>)
    requires Initial(p, clks) && forall k :: 0 <= k < |es| ==> Proper(es[k])
    ensures PoolInv(p, maxConn, clks)
    ensures var q := Run(p, es, maxConn, clks);
      && (forall r :: 0 <= r < MAX_PEERS ==>
           (q.uploadingTo[r] <==> exists i :: 0 <= i < MAX_UPLOAD && Serves(q.senders[i], r)))
      && (forall r, i, j :: 0 <= i < j < MAX_UPLOAD && Serves(q.senders[i], r) ==> !Serves(q.senders[j], r))
      && q.cnt == CountTrue(q.uploadingTo, 0) == CountBusy(q.senders, 0)
      && 0 <= q.cnt <= MAX_UPLOAD && q.cnt <= (if maxConn > 0 then maxConn else 0)
      && (forall i :: 0 <= i < MAX_UPLOAD && !q.senders[i].isIdle ==> Open(q.senders[i], q.sources[i], clks[i]))
  {
    hide Open;
    InitialIsInv(p, maxConn, clks);
  }
}
