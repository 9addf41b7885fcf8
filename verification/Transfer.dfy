/**
 * One chunk sent by the sender of send.c to the receiver of requestor.c over a network that loses, repeats and
 * reorders packets: anything ever sent may be delivered at any time, any number of times, or never.
 */
module Transfer {
  import opened Common
  import opened SenderSpec
  import opened SenderProofs
  import SenderRuns
  import Req = RequestorSpec
  import RequestorProofs
  import Sha1Spec

  // The chunk and its packets

  function Block(buf: seq<byte>, i: nat): (b: seq<byte>)
    requires |buf| == CHUNK_SIZE && i < BUFFER_LEN
    ensures |b| == PACKET_SIZE
  {
    buf[i * PACKET_SIZE..i * PACKET_SIZE + PACKET_SIZE]
  }

  /** The payloads that send_chunk reads from the file, one packet after the other. */
  function Blocks(chunk: seq<byte>): (r: seq<seq<byte>>)
    requires |chunk| == CHUNK_SIZE
    ensures |r| == BUFFER_LEN
    ensures forall i :: 0 <= i < BUFFER_LEN ==> r[i] == Block(chunk, i)
  {
    seq(BUFFER_LEN, i requires 0 <= i < BUFFER_LEN => Block(chunk, i))
  }

  lemma SpliceOneBlock(buf: seq<byte>, n: nat, payload: seq<byte>, i: nat)
    requires |buf| == CHUNK_SIZE && n < BUFFER_LEN && i < BUFFER_LEN && |payload| == PACKET_SIZE
    ensures Block(Req.Splice(buf, n * PACKET_SIZE, payload), i) == if i == n then payload else Block(buf, i)
  {
    hide Req.Splice;
    SpliceAt(buf, n * PACKET_SIZE, payload, i * PACKET_SIZE);
  }

  /** Copying bytes into a buffer puts them there and leaves every stretch of the same length beside them alone. */
  lemma SpliceAt(buf: seq<byte>, at: nat, payload: seq<byte>, from: nat)
    requires at + |payload| <= |buf| && from + |payload| <= |buf|
    requires from == at || from + |payload| <= at || at + |payload| <= from
    ensures Req.Splice(buf, at, payload)[from..from + |payload|]
      == if from == at then payload else buf[from..from + |payload|]
  {}

  /** A buffer is determined by its blocks. */
  lemma SameBlocks(a: seq<byte>, b: seq<byte>)
    requires |a| == |b| == CHUNK_SIZE
    requires forall i :: 0 <= i < BUFFER_LEN ==> Block(a, i) == Block(b, i)
    ensures a == b
  {
    forall j | 0 <= j < CHUNK_SIZE ensures a[j] == b[j] {
      var i, k := j / PACKET_SIZE, j % PACKET_SIZE;
      assert Block(a, i)[k] == a[j] && Block(b, i)[k] == b[j];
    }
  }

  // The joint state

  /** How the sender's connection stands: open, closed by the ACK of the last packet, or given up after resends. */
  datatype Status = Running | Acked | GaveUp

  /**
   * The sender with its log of sent packets, the receiver's chunk record, whether the receiver still takes packets,
   * and the ACK numbers it has sent.
   */
  datatype Joint = Joint(s: Sender, status: Status, c: Req.Chunk, active: bool, acks: set<nat>)

  datatype NetEvent =
    | SenderTick
    | DeliverAck(ackNum: nat)
    | DeliverData(k: nat)
    | ReceiverGivesUp

  /** One past the highest packet number in a log. */
  function HighWater(sent: seq<Data>): nat {
    if sent == [] then 0
    else
      var h, last := HighWater(sent[..|sent| - 1]), sent[|sent| - 1].seqNum + 1;
      if h < last then last else h
  }

  /** Every packet of the log is a packet of the chunk, and none below the highest is missing. */
  ghost predicate SentPrefix(sent: seq<Data>, src: seq<seq<byte>>) {
    && |src| == BUFFER_LEN
    && HighWater(sent) <= BUFFER_LEN
    && (forall k :: 0 <= k < |sent| ==>
         sent[k].seqNum < HighWater(sent) && sent[k] == Data(sent[k].seqNum, src[sent[k].seqNum]))
    && (forall n :: 0 <= n < HighWater(sent) ==> Data(n, src[n]) in sent)
  }

  ghost function Step(t: Joint, e: NetEvent, chunk: seq<byte>, clk: Clock): Joint
    requires |chunk| == CHUNK_SIZE && JointInv(t, chunk, clk)
  {
    match e
    case SenderTick =>
      if t.status != Running then t
      else
        var o := CtlUdpTimeOut(t.s, clk);
        t.(s := o.s, status := if o.closed then GaveUp else Running)
    case DeliverAck(a) =>
      if t.status != Running || a !in t.acks then t
      else
        var o := CtlUdpAck(t.s, a, clk);
        t.(s := o.s, status := if o.closed then Acked else Running)
    case DeliverData(k) =>
      if !t.active || k >= |t.s.sent| || t.s.sent[k].seqNum < t.c.curAck then t
      else
        var d := Req.Receive(t.c, t.s.sent[k].seqNum, t.s.sent[k].payload);
        t.(c := d, active := d.left != 0, acks := t.acks + {d.curAck as nat})
    case ReceiverGivesUp => t.(active := false)
  }

  /** What holds between the two ends in every reachable state. */
  ghost predicate JointInv(t: Joint, chunk: seq<byte>, clk: Clock)
    requires |chunk| == CHUNK_SIZE
  {
    var src := Blocks(chunk);
    && (t.status == Running ==> Open(t.s, src, clk) && WindowEnd(t.s) <= HighWater(t.s.sent) && t.s.head <= t.c.curAck)
    && SentPrefix(t.s.sent, src)
    && Req.ChunkShaped(t.c) && RequestorProofs.Counted(t.c)
    && t.c.curAck <= HighWater(t.s.sent)
    && (forall i :: 0 <= i < BUFFER_LEN && t.c.recved[i] ==> i < HighWater(t.s.sent))
    && (forall a :: a in t.acks ==> a <= t.c.curAck)
    && (t.status == Acked ==> t.c.curAck == BUFFER_LEN)
    && Faithful(t.c, chunk)
  }

  /** Every slot marked received holds the source block of that number. */
  ghost predicate Faithful(c: Req.Chunk, chunk: seq<byte>)
    requires |chunk| == CHUNK_SIZE
  {
    && Req.ChunkShaped(c)
    && forall i :: 0 <= i < BUFFER_LEN && c.recved[i] ==> Block(c.dataBuf, i) == Block(chunk, i)
  }

  // Logs

  lemma {:induction false} HighWaterOf(sent: seq<Data>)
    ensures forall k :: 0 <= k < |sent| ==> sent[k].seqNum < HighWater(sent)
    decreases |sent|
  {
    if sent != [] {
      HighWaterOf(sent[..|sent| - 1]);
    }
  }

  lemma SendOneMore(sent: seq<Data>, src: seq<seq<byte>>, n: nat)
    requires SentPrefix(sent, src) && n <= HighWater(sent) && n < BUFFER_LEN
    ensures SentPrefix(sent + [Data(n, src[n])], src)
    ensures HighWater(sent + [Data(n, src[n])]) == if n == HighWater(sent) then n + 1 else HighWater(sent)
  {
    var more := sent + [Data(n, src[n])];
    assert more[..|sent|] == sent && more[|sent|] == Data(n, src[n]);
    forall m | 0 <= m < HighWater(more) ensures Data(m, src[m]) in more {
      assert m < HighWater(sent) ==> Data(m, src[m]) in sent;
    }
  }

  /** Sending the packets lo..hi, with lo not beyond the highest so far, leaves no gap. */
  lemma {:induction false} SendingKeepsPrefix(sent: seq<Data>, src: seq<seq<byte>>, lo: nat, hi: int)
    requires SentPrefix(sent, src) && lo <= HighWater(sent) && hi <= BUFFER_LEN
    ensures SentPrefix(sent + Packets(src, lo, hi), src)
    ensures HighWater(sent + Packets(src, lo, hi)) == if lo < hi && HighWater(sent) < hi then hi else HighWater(sent)
    decreases hi - lo
  {
    hide HighWater, Packets;
    if lo < hi {
      var more := sent + [Data(lo, src[lo])];
      SendOneMore(sent, src, lo);
      SendingKeepsPrefix(more, src, lo + 1, hi);
      PacketsFirst(src, lo, hi);
      assert sent + Packets(src, lo, hi) == more + Packets(src, lo + 1, hi);
    } else {
      assert sent + Packets(src, lo, hi) == sent;
    }
  }

  lemma SendingOneKeepsPrefix(sent: seq<Data>, src: seq<seq<byte>>, n: nat)
    requires SentPrefix(sent, src) && n < HighWater(sent)
    ensures SentPrefix(sent + [Data(n, src[n])], src)
    ensures HighWater(sent + [Data(n, src[n])]) == HighWater(sent)
  {
    SendingKeepsPrefix(sent, src, n, n + 1);
    assert Packets(src, n, n + 1) == [Data(n, src[n])];
  }

  // Steps

  lemma DuplicateAckSends(s: Sender, src: seq<seq<byte>>, clk: Clock)
    requires Steady(clk) && Open(s, src, clk)
    ensures var o := CtlUdpAck(s, s.head, clk);
      && (o.s.sent == s.sent || o.s.sent == s.sent + [Data(s.head, src[s.head])])
      && WindowEnd(o.s) <= WindowEnd(s)
  {
    hide CtlUdpAck, DuplicateAck, RttAmongSamples;
    DuplicateAckEffect(s, src, clk);
    DuplicateAckCases(s, src, clk);
  }

  lemma OtherAckSendsNothing(s: Sender, a: u32, src: seq<seq<byte>>, clk: Clock)
    requires Steady(clk) && Open(s, src, clk) && (a < s.head || a >= BUFFER_LEN)
    ensures CtlUdpAck(s, a, clk).s.sent == s.sent
    ensures a < s.head ==> CtlUdpAck(s, a, clk) == Outcome(s, false)
  {
    if a >= BUFFER_LEN {
      hide RttAmongSamples;
      var w := TakeAck(s, a, clk).value;
      assert clk(s.readings) <= clk(s.readings + 1);
      RttIgnoresBuffer(s, w);
      ShiftHeadMoves(w, s.head, a, src, clk);
    }
  }

  /** What an ACK makes the sender send leaves no gap, and the window stays within what was sent. */
  lemma AckSends(s: Sender, a: u32, src: seq<seq<byte>>, clk: Clock)
    requires Steady(clk) && Open(s, src, clk) && SentPrefix(s.sent, src)
    requires WindowEnd(s) <= HighWater(s.sent) && a <= HighWater(s.sent)
    ensures var o := CtlUdpAck(s, a, clk);
      && SentPrefix(o.s.sent, src) && HighWater(s.sent) <= HighWater(o.s.sent)
      && (!o.closed ==> WindowEnd(o.s) <= HighWater(o.s.sent))
  {
    hide CtlUdpAck, Sane, Started, SentPrefix, HighWater, Packets;
    OpenBounds(s, src, clk);
    AckKeepsOpen(s, a, src, clk);
    if a == s.head {
      DuplicateAckSends(s, src, clk);
      SendingOneKeepsPrefix(s.sent, src, s.head);
    } else if s.head < a < BUFFER_LEN {
      NewAckEffect(s, a, src, clk);
      var w := CtlUdpAck(s, a, clk).s;
      var from, end := if s.head + s.windowSize < a then a else s.head + s.windowSize, WindowEnd(w);
      OpenBounds(w, src, clk);
      NothingBefore(s, from, end, src);
      if from < end {
        SendingKeepsPrefix(s.sent, src, from, end);
      }
    } else {
      OtherAckSendsNothing(s, a, src, clk);
    }
  }

  lemma NothingBefore(s: Sender, from: nat, end: int, src: seq<seq<byte>>)
    requires |src| == BUFFER_LEN && end <= BUFFER_LEN
    ensures end <= from ==> s.sent + Packets(src, from, end) == s.sent
  {}

  lemma OpenBounds(s: Sender, src: seq<seq<byte>>, clk: Clock)
    requires Open(s, src, clk)
    ensures Started(s) && |src| == BUFFER_LEN && s.head < WindowEnd(s) <= BUFFER_LEN
    ensures s.head + s.windowSize < BUFFER_LEN ==> s.head + s.windowSize == WindowEnd(s)
  {
    hide RttAmongSamples;
  }

  /** Any step of the sender that meets these terms keeps the invariant. */
  lemma SenderMoves(t: Joint, o: Outcome, closing: Status, chunk: seq<byte>, clk: Clock)
    requires |chunk| == CHUNK_SIZE && JointInv(t, chunk, clk)
    requires SentPrefix(o.s.sent, Blocks(chunk)) && HighWater(t.s.sent) <= HighWater(o.s.sent)
    requires o.closed ==> closing != Running && (closing == Acked ==> t.c.curAck == BUFFER_LEN)
    requires !o.closed ==> t.status == Running && Open(o.s, Blocks(chunk), clk)
    requires !o.closed ==> WindowEnd(o.s) <= HighWater(o.s.sent) && o.s.head <= t.c.curAck
    ensures JointInv(t.(s := o.s, status := if o.closed then closing else Running), chunk, clk)
  {
    hide Open, HighWater, SentPrefix, Faithful, RequestorProofs.Counted;
  }

  lemma AckStep(t: Joint, a: nat, chunk: seq<byte>, clk: Clock)
    requires |chunk| == CHUNK_SIZE && Steady(clk) && JointInv(t, chunk, clk)
    ensures JointInv(Step(t, DeliverAck(a), chunk, clk), chunk, clk)
  {
    hide CtlUdpAck, Open, HighWater, SentPrefix, Faithful, RequestorProofs.Counted;
    if t.status == Running && a in t.acks {
      RequestorProofs.CountedRange(t.c);
      OpenBounds(t.s, Blocks(chunk), clk);
      AckKeepsOpen(t.s, a, Blocks(chunk), clk);
      AckSends(t.s, a, Blocks(chunk), clk);
      SenderMoves(t, CtlUdpAck(t.s, a, clk), Acked, chunk, clk);
    }
  }

  lemma TickStep(t: Joint, chunk: seq<byte>, clk: Clock)
    requires |chunk| == CHUNK_SIZE && Steady(clk) && JointInv(t, chunk, clk)
    ensures JointInv(Step(t, SenderTick, chunk, clk), chunk, clk)
  {
    hide CtlUdpTimeOut, Open, HighWater, SentPrefix, Faithful, RequestorProofs.Counted;
    if t.status == Running {
      var src := Blocks(chunk);
      OpenBounds(t.s, src, clk);
      TickKeepsOpen(t.s, src, clk);
      TickSends(t.s, src, clk);
      SendingOneKeepsPrefix(t.s.sent, src, t.s.head);
      SenderMoves(t, CtlUdpTimeOut(t.s, clk), GaveUp, chunk, clk);
    }
  }

  lemma TickSends(s: Sender, src: seq<seq<byte>>, clk: Clock)
    requires Steady(clk) && Open(s, src, clk)
    ensures var o := CtlUdpTimeOut(s, clk);
      && (o.s.sent == s.sent || o.s.sent == s.sent + [Data(s.head, src[s.head])])
      && (o.closed ==> o.s.sent == s.sent)
      && WindowEnd(o.s) <= WindowEnd(s)
  {}

  lemma DataStep(t: Joint, k: nat, chunk: seq<byte>, clk: Clock)
    requires |chunk| == CHUNK_SIZE && JointInv(t, chunk, clk)
    ensures JointInv(Step(t, DeliverData(k), chunk, clk), chunk, clk)
  {
    hide Open, Req.Receive, RequestorProofs.Counted;
    RequestorProofs.CountedRange(t.c);
    if t.active && k < |t.s.sent| && t.s.sent[k].seqNum >= t.c.curAck {
      var n, payload := t.s.sent[k].seqNum, t.s.sent[k].payload;
      RequestorProofs.ReceiveKeepsCounted(t.c, n, payload);
      RequestorProofs.ReceiveKeepsTransfer(t.c, n, payload);
      ReceiveKeepsFaithful(t.c, n, chunk);
      AckWithinSent(Req.Receive(t.c, n, payload), HighWater(t.s.sent));
    }
  }

  lemma AckWithinSent(c: Req.Chunk, h: nat)
    requires RequestorProofs.Counted(c) && forall i :: 0 <= i < BUFFER_LEN && c.recved[i] ==> i < h
    ensures c.curAck <= h
  {
    if c.curAck > 0 {
      assert c.recved[c.curAck - 1];
    }
  }

  lemma ReceiveKeepsFaithful(c: Req.Chunk, n: nat, chunk: seq<byte>)
    requires |chunk| == CHUNK_SIZE && Faithful(c, chunk) && 0 <= c.curAck <= BUFFER_LEN && n < BUFFER_LEN
    ensures Faithful(Req.Receive(c, n, Block(chunk, n)), chunk)
  {
    forall i | 0 <= i < BUFFER_LEN
      ensures Block(Req.Receive(c, n, Block(chunk, n)).dataBuf, i)
        == if i == n then Block(chunk, n) else Block(c.dataBuf, i)
    {
      SpliceOneBlock(c.dataBuf, n, Block(chunk, n), i);
    }
  }

  lemma StepKeeps(t: Joint, e: NetEvent, chunk: seq<byte>, clk: Clock)
    requires |chunk| == CHUNK_SIZE && Steady(clk) && JointInv(t, chunk, clk)
    ensures JointInv(Step(t, e, chunk, clk), chunk, clk)
  {
    hide Open, SentPrefix, Faithful, RequestorProofs.Counted;
    match e
    case SenderTick => TickStep(t, chunk, clk);
    case DeliverAck(a) => AckStep(t, a, chunk, clk);
    case DeliverData(k) => DataStep(t, k, chunk, clk);
    case ReceiverGivesUp =>
  }

  // Whole transfers

  /** The sender just filled by send_chunk, the chunk record just reset by send_get, nothing acknowledged. */
  ghost function Start(s: Sender, id: int, c: Req.Chunk, peer: nat, chunk: seq<byte>, clk: Clock): (t: Joint)
    requires |chunk| == CHUNK_SIZE && Steady(clk) && |c.dataBuf| == CHUNK_SIZE && Req.InRange(c.providers)
    ensures JointInv(t, chunk, clk)
  {
    StartIsSafe(s, id, c, peer, chunk, clk);
    Joint(SenderRuns.Fresh(s, id, Blocks(chunk), clk), Running, Req.Restart(c, peer), true, {})
  }

  lemma StartIsSafe(s: Sender, id: int, c: Req.Chunk, peer: nat, chunk: seq<byte>, clk: Clock)
    requires |chunk| == CHUNK_SIZE && Steady(clk) && |c.dataBuf| == CHUNK_SIZE && Req.InRange(c.providers)
    ensures var filled := SenderRuns.Fresh(s, id, Blocks(chunk), clk);
      JointInv(Joint(filled, Running, Req.Restart(c, peer), true, {}), chunk, clk)
  {
    hide SenderRuns.Fresh, Sane, Blocks, SentPrefix, HighWater;
    RequestorProofs.AllMissing(Req.NoneReceived(), 0);
    FreshSendsFirst(s, id, Blocks(chunk), clk);
    OneSent(Blocks(chunk));
  }

  lemma OneSent(src: seq<seq<byte>>)
    requires |src| == BUFFER_LEN
    ensures SentPrefix([Data(0, src[0])], src) && HighWater([Data(0, src[0])]) == 1
  {
    SendingKeepsPrefix([], src, 0, 1);
    assert [] + Packets(src, 0, 1) == [Data(0, src[0])];
  }

  /** Filling the buffer sends the first packet and no other. */
  lemma FreshSendsFirst(s: Sender, id: int, src: seq<seq<byte>>, clk: Clock)
    requires |src| == BUFFER_LEN && Steady(clk)
    ensures var t := SenderRuns.Fresh(s, id, src, clk); t.sent == [Data(0, src[0])] && t.windowSize == 1
  {
    SenderRuns.FreshState(s, id, src, clk);
  }

  ghost function Run(t: Joint, es: seq<NetEvent>, chunk: seq<byte>, clk: Clock): (u: Joint)
    requires |chunk| == CHUNK_SIZE && Steady(clk) && JointInv(t, chunk, clk)
    ensures JointInv(u, chunk, clk)
    decreases |es|
  {
    if es == [] then t
    else
      StepKeeps(t, es[0], chunk, clk);
      Run(Step(t, es[0], chunk, clk), es[1..], chunk, clk)
  }

  /**
   * Safety of every transfer over every such network: the sender's head, which is its last ACK, is at most every
   * ACK it can still take as new, these are at most the receiver's cumulative ACK, and that is at most one past the
   * highest packet sent. Every packet freed by the sender is held by the receiver, block for block.
   */
  lemma TransferIsSafe(s: Sender, id: int, c: Req.Chunk, peer: nat, chunk: seq<byte>, clk: Clock, es: seq<NetEvent>)
    requires |chunk| == CHUNK_SIZE && Steady(clk) && |c.dataBuf| == CHUNK_SIZE && Req.InRange(c.providers)
    ensures var t := Run(Start(s, id, c, peer, chunk, clk), es, chunk, clk);
      && |t.c.recved| == BUFFER_LEN && |t.c.dataBuf| == CHUNK_SIZE
      && (t.status == Running ==>
           && t.s.head == t.s.lastAckNum <= t.c.curAck <= HighWater(t.s.sent) <= t.s.tail == BUFFER_LEN
           && (forall a :: a in t.acks && a > t.s.lastAckNum ==> t.s.head <= a <= t.c.curAck)
           && forall i :: 0 <= i < t.s.head ==> t.c.recved[i] && Block(t.c.dataBuf, i) == Block(chunk, i))
      && (forall i :: 0 <= i < BUFFER_LEN && t.c.recved[i] ==> Block(t.c.dataBuf, i) == Block(chunk, i))
  {
    var t := Run(Start(s, id, c, peer, chunk, clk), es, chunk, clk);
    RequestorProofs.CountedRange(t.c);
  }

  /** The sender sees the ACK of the last packet only after the receiver has assembled the whole chunk. */
  lemma ClosedMeansComplete(s: Sender, id: int, c: Req.Chunk, peer: nat, chunk: seq<byte>, clk: Clock,
                            es: seq<NetEvent>)
    requires |chunk| == CHUNK_SIZE && Steady(clk) && |c.dataBuf| == CHUNK_SIZE && Req.InRange(c.providers)
    ensures var t := Run(Start(s, id, c, peer, chunk, clk), es, chunk, clk);
      && (t.status == Acked ==> t.c.left == 0)
      && (t.c.left == 0 ==> t.c.dataBuf == chunk)
  {
    var t := Run(Start(s, id, c, peer, chunk, clk), es, chunk, clk);
    CompleteMeansEqual(t.c, chunk);
  }

  lemma CompleteMeansEqual(c: Req.Chunk, chunk: seq<byte>)
    requires |chunk| == CHUNK_SIZE && Faithful(c, chunk) && RequestorProofs.Counted(c)
    ensures c.left == 0 <==> c.curAck == BUFFER_LEN
    ensures c.left == 0 ==> c.dataBuf == chunk
  {
    RequestorProofs.NoneMissing(c.recved, 0);
    if c.left == 0 {
      SameBlocks(c.dataBuf, chunk);
    }
  }

  // The digest gate

  lemma HexDigitInjective(x: byte, y: byte)
    requires x < 16 && y < 16 && Req.HexDigit(x) == Req.HexDigit(y)
    ensures x == y
  {}

  lemma {:induction false} HexInjective(a: seq<byte>, b: seq<byte>)
    requires |a| == |b| && Req.Hex(a) == Req.Hex(b)
    ensures a == b
  {
    if a != [] {
      assert Req.Hex(a)[0] == Req.Hex(b)[0] && Req.Hex(a)[1] == Req.Hex(b)[1];
      assert Req.Hex(a)[2..] == Req.Hex(a[1..]) && Req.Hex(b)[2..] == Req.Hex(b[1..]);
      ByteFromDigits(a[0], b[0]);
      HexInjective(a[1..], b[1..]);
    }
  }

  lemma ByteFromDigits(x: byte, y: byte)
    requires Req.HexDigit(x >> 4) == Req.HexDigit(y >> 4) && Req.HexDigit(x & 15) == Req.HexDigit(y & 15)
    ensures x == y
  {
    HexDigitInjective(x >> 4, y >> 4);
    HexDigitInjective(x & 15, y & 15);
    HalvesDetermine(x, y);
  }

  lemma HalvesDetermine(x: byte, y: byte)
    requires x >> 4 == y >> 4 && x & 15 == y & 15
    ensures x == y
  {}

  /** When the request is a digest in lowercase hexadecimal, a buffer passes exactly if it has that digest. */
  lemma MatchesMeansDigest(region: seq<byte>, d: seq<byte>)
    requires |d| == 20
    ensures RequestorProofs.Matches(region, Req.Hex(d)) <==> Sha1Spec.Digest(region) == d
  {
    hide Sha1Spec.Digest;
    if RequestorProofs.Matches(region, Req.Hex(d)) {
      HexInjective(Sha1Spec.Digest(region), d);
    }
  }

  /** A completed transfer of the chunk that was asked for is never rejected. */
  lemma HonestTransferMatches(s: Sender, id: int, c: Req.Chunk, peer: nat, chunk: seq<byte>, clk: Clock,
                              es: seq<NetEvent>)
    requires |chunk| == CHUNK_SIZE && Steady(clk) && |c.dataBuf| == CHUNK_SIZE && Req.InRange(c.providers)
    requires c.hash == Req.Hex(Sha1Spec.Digest(chunk))
    ensures var t := Run(Start(s, id, c, peer, chunk, clk), es, chunk, clk);
      t.c.left == 0 ==> RequestorProofs.Matches(t.c.dataBuf, c.hash)
  {
    ClosedMeansComplete(s, id, c, peer, chunk, clk, es);
    MatchesMeansDigest(chunk, Sha1Spec.Digest(chunk));
  }

  // The receiver of the joint state is the one inside the requestor

  /**
   * For the peer serving chunk i, update_data ignores an old packet, and otherwise does Receive and acknowledges it.
   */
  lemma UpdateDataReceives(r: Req.Requestor, p: nat, i: nat, n: nat, payload: seq<byte>)
    requires RequestorProofs.Inv(r) && p < MAX_PEERS && i < |r.chunks| && r.downloading[p] == i
    requires n < BUFFER_LEN && |payload| == PACKET_SIZE
    ensures 0 <= r.chunks[i].curAck <= BUFFER_LEN && r.chunks[i].curProvider == p
    ensures var c, t := r.chunks[i], Req.UpdateData(r, p, n, payload);
      && (n < c.curAck ==> t == r)
      && (n >= c.curAck ==>
           var d := Req.Receive(c, n, payload);
           && r.log + [Req.Ack(p, d.curAck)] <= t.log
           && (d.left != 0 ==> t.chunks[i] == d && t.downloading == r.downloading && t.output == r.output)
           && (d.left == 0 && RequestorProofs.Matches(d.dataBuf, d.hash) ==>
                t.output == Req.Write(r.output, i * CHUNK_SIZE, d.dataBuf)))
  {
    hide Req.Receive, Req.Hex, Req.RequestNext, Req.Write, Sha1Spec.Digest;
    hide RequestorProofs.Counted, RequestorProofs.Written, RequestorProofs.Distinct;
    var c := r.chunks[i];
    RequestorProofs.CountedRange(c);
    if n >= c.curAck {
      var d := Req.Receive(c, n, payload);
      RequestorProofs.ReceiveKeepsTransfer(c, n, payload);
      var u := RequestorProofs.WithChunk(r, i, d, Req.Ack(p, d.curAck));
      if d.left == 0 {
        var v := if RequestorProofs.Matches(d.dataBuf, d.hash) then Req.Accept(u, i) else Req.Reject(u, i);
        Req.RequestNextAssigns(v, 0);
        RequestNextTalks(v, 0);
      }
    }
  }

  lemma {:induction false} RequestNextTalks(r: Req.Requestor, i: nat)
    requires Req.Shaped(r)
    ensures r.log <= Req.RequestNext(r, i).0.log
    decreases |r.chunks| - i
  {
    if i < |r.chunks| {
      if !Req.Waiting(r.chunks[i]) {
        RequestNextTalks(r, i + 1);
      } else if r.chunks[i].providers != [] && Req.Pick(r.chunks[i], r.downloading).None? {
        RequestNextTalks(r, i + 1);
      }
    }
  }

  /** When the last missing packet of an honest transfer arrives, the source chunk is what goes to the output file. */
  lemma CompletedTransferIsWritten(r: Req.Requestor, p: nat, i: nat, n: nat, chunk: seq<byte>)
    requires RequestorProofs.Inv(r) && p < MAX_PEERS && i < |r.chunks| && r.downloading[p] == i
    requires |chunk| == CHUNK_SIZE && n < BUFFER_LEN && r.chunks[i].curAck <= n
    requires Faithful(r.chunks[i], chunk) && r.chunks[i].hash == Req.Hex(Sha1Spec.Digest(chunk))
    requires forall k :: 0 <= k < BUFFER_LEN && k != n ==> r.chunks[i].recved[k]
    ensures var t := Req.UpdateData(r, p, n, Block(chunk, n));
      RequestorProofs.Present(t.output, i) && RequestorProofs.Region(t.output, i) == chunk
  {
    hide Sha1Spec.Digest, Req.Hex, Req.UpdateData, Req.Write, RequestorProofs.Written, RequestorProofs.Distinct;
    hide RequestorProofs.Present;
    var c := r.chunks[i];
    RequestorProofs.CountedRange(c);
    var d := Req.Receive(c, n, Block(chunk, n));
    UpdateDataReceives(r, p, i, n, Block(chunk, n));
    RequestorProofs.ReceiveKeepsCounted(c, n, Block(chunk, n));
    RequestorProofs.ReceiveKeepsTransfer(c, n, Block(chunk, n));
    ReceiveKeepsFaithful(c, n, chunk);
    CompleteMeansEqual(d, chunk);
    RequestorProofs.WriteRegion(r.output, i, chunk, i);
    assert d.curAck == BUFFER_LEN by { AllReceived(d); }
    MatchesMeansDigest(chunk, Sha1Spec.Digest(chunk));
  }

  lemma AllReceived(c: Req.Chunk)
    requires RequestorProofs.Counted(c) && forall k :: 0 <= k < BUFFER_LEN ==> c.recved[k]
    ensures c.curAck == BUFFER_LEN
  {}
}
