/**
 * What a handler of send.c does to an open connection, said by the numbers of the source and not by the parts that the
 * handler is made of.
 */
module SenderLaws {
  import opened Common
  import opened SenderSpec
  import opened SenderProofs
  import SenderRuns

  // Round-trip samples

  /** One sample folded into the estimate: too small or too large a one is ignored, others count two tenths. */
  ghost predicate Folded(rtt: int, sample: int, next: int) {
    if 5 * sample < rtt || (rtt != 0 && sample >= 5 * rtt + 5) then next == rtt
    else if rtt == 0 then next == sample
    else 10 * next <= 8 * rtt + 2 * sample < 10 * next + 10
  }

  /** update_rtt reads the clock once and folds in the time since the packet was sent. */
  lemma RttLaw(s: Sender, sentTs: int, clk: Clock)
    requires s.rtt >= 0 && sentTs <= clk(s.readings)
    ensures var t, sample := UpdateRtt(s, sentTs, clk), clk(s.readings) - sentTs;
      && Folded(s.rtt, sample, t.rtt)
      && t == s.(readings := s.readings + 1, rtt := t.rtt, samples := t.samples)
      && t.samples == (if 5 * sample < s.rtt || (s.rtt != 0 && sample >= 5 * s.rtt + 5) then s.samples
                       else s.samples + [sample])
  {}

  /**
   * rtts[j] is the estimate after j of the packets from i on have been acknowledged, each sampled with a clock
   * reading of its own.
   */
  ghost predicate Estimates(s: Sender, i: nat, rtts: seq<int>, clk: Clock) {
    && rtts != [] && rtts[0] == s.rtt && i + |rtts| - 1 <= |s.buf|
    && forall j :: 0 <= j < |rtts| - 1 ==> Folded(rtts[j], clk(s.readings + j) - s.buf[i + j].sentTs, rtts[j + 1])
  }

  lemma ReleaseLaw(s: Sender, i: nat, src: seq<seq<byte>>, clk: Clock)
    requires Steady(clk) && Buffered(s, i, src, clk) && i < s.tail && s.rtt >= 0
    ensures var r := Release(s, i, clk);
      && r == s.(readings := s.readings + 1, rtt := r.rtt, samples := r.samples, buf := r.buf)
      && Folded(s.rtt, clk(s.readings) - s.buf[i].sentTs, r.rtt) && r.rtt >= 0
      && r.buf == s.buf[i := s.buf[i].(ack := 1, data := None)]
      && Buffered(r, i + 1, src, clk)
  {
    hide Accepts, Smooth, Folded;
    RttLaw(s, s.buf[i].sentTs, clk);
    FoldedIsNat(s.rtt, clk(s.readings) - s.buf[i].sentTs, Release(s, i, clk).rtt);
    assert clk(s.readings) <= clk(s.readings + 1);
  }

  lemma FoldedIsNat(rtt: int, sample: int, next: int)
    requires Folded(rtt, sample, next) && rtt >= 0 && sample >= 0
    ensures next >= 0
  {}

  /** t is s with the packets from i to n - 1 freed and sampled, the estimates being those of rtts. */
  ghost predicate Shifted(s: Sender, i: nat, n: nat, rtts: seq<int>, clk: Clock, t: Sender) {
    && i <= n <= |s.buf|
    && t == s.(head := n, readings := s.readings + n - i, rtt := t.rtt, samples := t.samples, buf := t.buf)
    && |t.buf| == |s.buf|
    && (forall k :: 0 <= k < |s.buf| && !(i <= k < n) ==> t.buf[k] == s.buf[k])
    && (forall k :: i <= k < n ==> t.buf[k].data.None?)
    && |rtts| == n - i + 1 && Estimates(s, i, rtts, clk) && t.rtt == rtts[n - i]
  }

  /** The packets below the ACK are freed and sampled one by one, and nothing else happens. */
  lemma {:induction false} ShiftHeadLaw(s: Sender, i: nat, n: u32, src: seq<seq<byte>>, clk: Clock)
    returns (rtts: seq<int>)
    requires Steady(clk) && Buffered(s, i, src, clk) && s.head <= i <= n <= s.tail && s.rtt >= 0
    ensures Shaped(s, i) && Shifted(s, i, n, rtts, clk, ShiftHead(s, i, n, clk))
    decreases n - i
  {
    hide Release, Buffered, Folded, Shifted;
    BufferedShape(s, i, src, clk);
    if i < n {
      var r := Release(s, i, clk);
      ReleaseLaw(s, i, src, clk);
      var rest := ShiftHeadLaw(r, i + 1, n, src, clk);
      rtts := [s.rtt] + rest;
      OneMoreShifted(s, i, n, r, rest, clk, ShiftHead(r, i + 1, n, clk));
    } else {
      rtts := [s.rtt];
      NoneShifted(s, i, clk);
    }
  }

  lemma NoneShifted(s: Sender, i: nat, clk: Clock)
    requires i <= |s.buf|
    ensures Shifted(s, i, i, [s.rtt], clk, s.(head := i))
  {}

  lemma OneMoreShifted(s: Sender, i: nat, n: nat, r: Sender, rest: seq<int>, clk: Clock, t: Sender)
    requires i < n && i < |s.buf| && Shifted(r, i + 1, n, rest, clk, t)
    requires r == s.(readings := s.readings + 1, rtt := r.rtt, samples := r.samples, buf := r.buf)
    requires r.buf == s.buf[i := s.buf[i].(ack := 1, data := None)]
    requires Folded(s.rtt, clk(s.readings) - s.buf[i].sentTs, r.rtt)
    ensures Shifted(s, i, n, [s.rtt] + rest, clk, t)
  {
    hide Folded;
    EstimatesOneMore(s, i, r, rest, clk);
  }

  lemma EstimatesOneMore(s: Sender, i: nat, r: Sender, rest: seq<int>, clk: Clock)
    requires Estimates(r, i + 1, rest, clk) && r.readings == s.readings + 1 && i < |s.buf| == |r.buf|
    requires forall k :: i < k < |s.buf| ==> r.buf[k] == s.buf[k]
    requires Folded(s.rtt, clk(s.readings) - s.buf[i].sentTs, r.rtt)
    ensures Estimates(s, i, [s.rtt] + rest, clk)
  {
    hide Folded;
    var rtts := [s.rtt] + rest;
    forall j | 0 <= j < |rtts| - 1
      ensures Folded(rtts[j], clk(s.readings + j) - s.buf[i + j].sentTs, rtts[j + 1])
    {
      if j > 0 {
        assert Folded(rest[j - 1], clk(r.readings + (j - 1)) - r.buf[i + 1 + (j - 1)].sentTs, rest[j]);
      }
    }
  }

  /** t is s with exactly the packets from i to end - 1 sent, each stamped with a clock reading of its own. */
  ghost predicate Stamped(s: Sender, i: nat, end: int, src: seq<seq<byte>>, clk: Clock, t: Sender) {
    && |src| == 1024 && end <= 1024 && |t.buf| == |s.buf|
    && t == s.(readings := s.readings + (if i < end then end - i else 0), sent := s.sent + Packets(src, i, end),
               buf := t.buf)
    && forall k :: 0 <= k < |s.buf| ==>
      t.buf[k] == if i <= k < end then s.buf[k].(ack := 0, sentTs := clk(s.readings + k - i)) else s.buf[k]
  }

  /** Exactly the packets from i to the end of the window are sent. */
  lemma {:induction false} SendWindowLaw(s: Sender, i: nat, src: seq<seq<byte>>, clk: Clock)
    requires Steady(clk) && Buffered(s, s.head, src, clk) && s.head <= i && s.windowSize >= 0
    ensures |s.buf| == BUFFER_LEN && s.tail <= BUFFER_LEN
    ensures Stamped(s, i, WindowEnd(s), src, clk, SendWindow(s, i, clk))
    decreases s.tail - i
  {
    hide Buffered, Packets, SendWindow, CtlSend, Stamped;
    BufferedShape(s, s.head, src, clk);
    SendWindowStep(s, i, clk);
    if i < s.tail && i - s.head < s.windowSize {
      var u := CtlSend(s, i, clk);
      SendOneLaw(s, i, src, clk);
      SendWindowLaw(u, i + 1, src, clk);
      OneMoreStamped(s, i, WindowEnd(s), u, src, clk, SendWindow(u, i + 1, clk));
    } else {
      NoneStamped(s, i, WindowEnd(s), src, clk);
    }
  }

  lemma NoneStamped(s: Sender, i: nat, end: int, src: seq<seq<byte>>, clk: Clock)
    requires end <= i && |src| == 1024 && end <= 1024
    ensures Stamped(s, i, end, src, clk, s)
  {}

  lemma OneMoreStamped(s: Sender, i: nat, end: int, u: Sender, src: seq<seq<byte>>, clk: Clock, t: Sender)
    requires i < end && i < |s.buf| && i < 1024 && Stamped(u, i + 1, end, src, clk, t)
    requires u == s.(readings := s.readings + 1, sent := s.sent + [Data(i, src[i])],
                     buf := s.buf[i := s.buf[i].(ack := 0, sentTs := clk(s.readings))])
    ensures Stamped(s, i, end, src, clk, t)
  {
    hide Packets;
    PacketsFirst(src, i, end);
    assert s.sent + Packets(src, i, end) == u.sent + Packets(src, i + 1, end);
  }

  lemma SendOneLaw(s: Sender, i: nat, src: seq<seq<byte>>, clk: Clock)
    requires Steady(clk) && Buffered(s, s.head, src, clk) && s.head <= i < s.tail && i - s.head < s.windowSize
    ensures var t := CtlSend(s, i, clk);
      && t == s.(readings := s.readings + 1, sent := s.sent + [Data(i, src[i])],
                 buf := s.buf[i := s.buf[i].(ack := 0, sentTs := clk(s.readings))])
      && Buffered(t, t.head, src, clk)
  {
    assert clk(s.readings) <= clk(s.readings + 1);
  }

  // ACKs

  /**
   * The window after a new ACK. In slow start it grows by one, and leaves slow start when it passes the threshold; in
   * congestion avoidance it grows by one if an estimated round trip has passed since it last did.
   */
  ghost predicate Grown(s: Sender, now: int, t: Sender) {
    && t.ssthresh == s.ssthresh
    && match s.windowState
       case SlowStart =>
         && t.windowSize == s.windowSize + 1 && t.lastUpdate == now
         && (t.windowState == CongCtl <==> s.windowSize + 1 > s.ssthresh)
       case CongCtl =>
         && t.windowState == CongCtl
         && (if now - s.lastUpdate >= s.rtt then t.windowSize == s.windowSize + 1 && t.lastUpdate == now
             else t.windowSize == s.windowSize && t.lastUpdate == s.lastUpdate)
  }

  /** One past the last packet that the window of t covers. */
  function Reach(t: Sender): int {
    if t.head + t.windowSize < 1024 then t.head + t.windowSize else 1024
  }

  /** The first packet that a new ACK n may send: what lay in the window before has been sent already. */
  function Unsent(s: Sender, n: u32): int {
    if s.head + s.windowSize < n then n else s.head + s.windowSize
  }

  /**
   * The fields after a new ACK n, but for the buffer and the estimate: the packets newly covered are sent, in order.
   */
  ghost predicate Moved(s: Sender, n: u32, src: seq<seq<byte>>, clk: Clock, t: Sender)
    requires s.head < n < 1024 == |src| && Unsent(s, n) >= 0
  {
    && t == s.(head := n, lastAckNum := n, lastAckCnt := 1, windowSize := t.windowSize, windowState := t.windowState,
               lastUpdate := t.lastUpdate, rtt := t.rtt, samples := t.samples, buf := t.buf, sent := t.sent,
               readings := t.readings)
    && Grown(s, clk(s.readings), t)
    && t.readings == s.readings + 1 + n - s.head + (if Unsent(s, n) < Reach(t) then Reach(t) - Unsent(s, n) else 0)
    && t.sent == s.sent + Packets(src, Unsent(s, n), Reach(t))
  }

  /** The buffer d after b, with packets head to n - 1 freed and packets from to end - 1 sent, stamped one by one. */
  ghost predicate Refilled(b: seq<Slot>, head: nat, n: nat, from: int, end: int, src: seq<seq<byte>>, base: nat,
                           clk: Clock, d: seq<Slot>)
    requires |b| == |src| == 1024 && head <= n <= 1024 && n <= from
  {
    && |d| == 1024
    && (forall k :: 0 <= k < head ==> d[k] == b[k])
    && (forall k :: head <= k < n ==> d[k].data.None?)
    && (forall k :: n <= k < 1024 ==>
         d[k] == if from <= k < end then Slot(Some(Data(k, src[k])), 0, clk(base + k - from), b[k].resend) else b[k])
  }

  /**
   * What a new ACK n does. The head is n, everything below it is freed and sampled, the window grows by the rule, and
   * exactly the packets that it newly covers are sent, each stamped with the time at which it goes out.
   */
  ghost predicate Advanced(s: Sender, n: u32, rtts: seq<int>, src: seq<seq<byte>>, clk: Clock, t: Sender)
    requires s.head < n < 1024 == |src| == |s.buf|
  {
    && Unsent(s, n) >= n && Moved(s, n, src, clk, t)
    && Refilled(s.buf, s.head, n, Unsent(s, n), Reach(t), src, s.readings + 1 + n - s.head, clk, t.buf)
    && |rtts| == n - s.head + 1 && Estimates(s.(readings := s.readings + 1), s.head, rtts, clk)
    && t.rtt == rtts[n - s.head]
  }

  lemma NewAckLaw(s: Sender, n: u32, src: seq<seq<byte>>, clk: Clock) returns (rtts: seq<int>)
    requires Steady(clk) && Open(s, src, clk) && s.head < n < 1024
    ensures |src| == |s.buf| == 1024
    ensures var o := CtlUdpAck(s, n, clk); !o.closed && Advanced(s, n, rtts, src, clk, o.s)
  {
    hide CtlUdpAck, TakeAck, ShiftHead, SendWindow, Sane, Advanced, Shifted, Stamped, Grown;
    OpenIsBuffered(s, src, clk);
    NewAckUnfolds(s, n, clk);
    var w := TakeAck(s, n, clk).value;
    TakenIsBuffered(s, n, src, clk);
    WdAckLaw(s, n, clk);
    rtts := ShiftHeadLaw(w, s.head, n, src, clk);
    var t := ShiftHead(w, s.head, n, clk);
    ShiftedIsBuffered(w, s.head, n, rtts, src, clk);
    SendWindowLaw(t, Unsent(s, n), src, clk);
    Assembled(s, n, w, rtts, t, src, clk, SendWindow(t, Unsent(s, n), clk));
  }

  lemma TakenIsBuffered(s: Sender, n: u32, src: seq<seq<byte>>, clk: Clock)
    requires Steady(clk) && Open(s, src, clk) && s.head < n < 1024
    ensures var w := TakeAck(s, n, clk); w.Some? && Buffered(w.value, s.head, src, clk) && RttAmongSamples(w.value)
  {
    hide TakeAck;
    TakeNewAckEffect(s, n, src, clk);
  }

  lemma ShiftedIsBuffered(w: Sender, i: nat, n: u32, rtts: seq<int>, src: seq<seq<byte>>, clk: Clock)
    requires Steady(clk) && Buffered(w, i, src, clk) && w.head == i <= n < w.tail && RttAmongSamples(w)
    requires Shaped(w, i) && Shifted(w, i, n, rtts, clk, ShiftHead(w, i, n, clk))
    ensures var t := ShiftHead(w, i, n, clk);
      Buffered(t, n, src, clk) && t.head == n && t.windowSize == w.windowSize && t.tail == w.tail
  {
    hide Buffered, RttAmongSamples, ShiftHead;
    ShiftHeadMoves(w, i, n, src, clk);
  }

  /** The three parts of a new ACK, put together. */
  lemma Assembled(s: Sender, n: u32, w: Sender, rtts: seq<int>, t: Sender, src: seq<seq<byte>>, clk: Clock, u: Sender)
    requires s.head < n < 1024 == s.tail == |src| == |s.buf| && s.windowSize >= 0
    requires w == s.(lastAckNum := n, lastAckCnt := 1, readings := s.readings + 1, windowState := w.windowState,
                     windowSize := w.windowSize, lastUpdate := w.lastUpdate)
    requires Grown(s, clk(s.readings), w)
    requires Shifted(w, s.head, n, rtts, clk, t) && Stamped(t, Unsent(s, n), WindowEnd(t), src, clk, u)
    requires forall k :: n <= k < 1024 ==> s.buf[k].data == Some(Data(k, src[k]))
    ensures Advanced(s, n, rtts, src, clk, u)
  {
    hide Folded, Estimates, Grown, Shifted, Stamped, Moved, Refilled;
    ShiftedFields(w, s.head, n, rtts, clk, t);
    StampedFields(t, Unsent(s, n), WindowEnd(t), src, clk, u);
    AssembledFields(s, n, w, t, src, clk, u);
    BuffersAssembled(s.buf, t.buf, u.buf, s.head, n, Unsent(s, n), Reach(u), src, t.readings, clk);
    SameEstimates(s, w, s.head, rtts, clk);
  }

  lemma AssembledFields(s: Sender, n: u32, w: Sender, t: Sender, src: seq<seq<byte>>, clk: Clock, u: Sender)
    requires s.head < n < 1024 == s.tail == |src| && Unsent(s, n) >= 0
    requires w == s.(lastAckNum := n, lastAckCnt := 1, readings := s.readings + 1, windowState := w.windowState,
                     windowSize := w.windowSize, lastUpdate := w.lastUpdate)
    requires Grown(s, clk(s.readings), w)
    requires t == w.(head := n, readings := w.readings + n - s.head, rtt := t.rtt, samples := t.samples, buf := t.buf)
    requires var from, end := Unsent(s, n), WindowEnd(t);
      u == t.(readings := t.readings + (if from < end then end - from else 0), sent := t.sent + Packets(src, from, end),
              buf := u.buf)
    ensures Moved(s, n, src, clk, u) && WindowEnd(t) == Reach(u)
  {
    hide Packets, Grown;
    SameGrowth(s, clk(s.readings), w, u);
  }

  lemma ShiftedFields(s: Sender, i: nat, n: nat, rtts: seq<int>, clk: Clock, t: Sender)
    requires Shifted(s, i, n, rtts, clk, t)
    ensures i <= n && |t.buf| == |s.buf| && t == s.(head := n, readings := s.readings + n - i, rtt := t.rtt,
                                                    samples := t.samples, buf := t.buf)
    ensures forall k :: 0 <= k < |s.buf| && !(i <= k < n) ==> t.buf[k] == s.buf[k]
    ensures forall k :: i <= k < n && k < |t.buf| ==> t.buf[k].data.None?
    ensures |rtts| == n - i + 1 && Estimates(s, i, rtts, clk) && t.rtt == rtts[n - i]
  {}

  lemma StampedFields(s: Sender, i: nat, end: int, src: seq<seq<byte>>, clk: Clock, t: Sender)
    requires Stamped(s, i, end, src, clk, t)
    ensures |src| == 1024 && end <= 1024 && |t.buf| == |s.buf|
    ensures t == s.(readings := s.readings + (if i < end then end - i else 0), sent := s.sent + Packets(src, i, end),
                    buf := t.buf)
    ensures forall k :: 0 <= k < |s.buf| ==>
      t.buf[k] == if i <= k < end then s.buf[k].(ack := 0, sentTs := clk(s.readings + k - i)) else s.buf[k]
  {
    hide Packets;
  }

  lemma SameGrowth(s: Sender, now: int, w: Sender, u: Sender)
    requires Grown(s, now, w) && u.ssthresh == w.ssthresh && u.windowSize == w.windowSize
    requires u.lastUpdate == w.lastUpdate && u.windowState == w.windowState
    ensures Grown(s, now, u)
  {}

  lemma BuffersAssembled(b: seq<Slot>, c: seq<Slot>, d: seq<Slot>, head: nat, n: nat, from: int, end: int,
                         src: seq<seq<byte>>, base: nat, clk: Clock)
    requires |b| == |c| == |d| == |src| == 1024 && head < n <= from && n <= 1024 && end <= 1024
    requires forall k :: 0 <= k < 1024 && !(head <= k < n) ==> c[k] == b[k]
    requires forall k :: head <= k < n ==> c[k].data.None?
    requires forall k :: 0 <= k < 1024 ==>
      d[k] == if from <= k < end then c[k].(ack := 0, sentTs := clk(base + k - from)) else c[k]
    requires forall k :: n <= k < 1024 ==> b[k].data == Some(Data(k, src[k]))
    ensures Refilled(b, head, n, from, end, src, base, clk, d)
  {}

  lemma OpenIsBuffered(s: Sender, src: seq<seq<byte>>, clk: Clock)
    requires Open(s, src, clk)
    ensures Started(s) && s.rtt >= 0 && s.windowSize >= 1 && |src| == |s.buf| == 1024
    ensures forall k :: s.head <= k < 1024 ==> s.buf[k].data == Some(Data(k, src[k])) && s.buf[k].ack == 0
    ensures forall k :: s.head <= k < 1024 ==> -1 <= s.buf[k].sentTs <= clk(s.readings) && s.buf[k].resend <= 5
  {}

  lemma WdAckLaw(s: Sender, n: u32, clk: Clock)
    requires Started(s) && s.lastAckNum < n < 1024
    ensures var w := TakeAck(s, n, clk);
      && w.Some? && Grown(s, clk(s.readings), w.value)
      && w.value == s.(lastAckNum := n, lastAckCnt := 1, readings := s.readings + 1, windowState := w.value.windowState,
                       windowSize := w.value.windowSize, lastUpdate := w.value.lastUpdate)
  {}

  lemma SameEstimates(s: Sender, w: Sender, i: nat, rtts: seq<int>, clk: Clock)
    requires Estimates(w, i, rtts, clk) && w.buf == s.buf && w.rtt == s.rtt && w.readings == s.readings + 1
    ensures Estimates(s.(readings := s.readings + 1), i, rtts, clk)
  {
    hide Folded;
  }

  /** The threshold after a loss: half the window, but at least two. */
  function Halved(window: int): (t: int)
    requires window >= 0
    ensures t >= 2 && t >= window / 2 && (t == 2 || t == window / 2)
  {
    if window / 2 > 2 then window / 2 else 2
  }

  /** The state after packet i was taken for lost: the window collapses, and i goes out again if it is the head. */
  ghost predicate Lost(s: Sender, i: nat, src: seq<seq<byte>>, clk: Clock, t: Sender)
    requires i < 1024 == |src| && s.windowSize >= 0
  {
    && t.windowSize == 1 && t.windowState == SlowStart && t.ssthresh == Halved(s.windowSize)
    && t.sent == s.sent + (if i == s.head then [Data(i, src[i])] else [])
    && t.lastUpdate == s.lastUpdate
  }

  /**
   * A duplicate ACK. The first two are counted. From the third on, one that comes too soon after the head was sent
   * changes nothing; any other is a loss, and the head goes out again.
   */
  lemma DuplicateAckLaw(s: Sender, src: seq<seq<byte>>, clk: Clock)
    requires Steady(clk) && Open(s, src, clk)
    ensures |src| == |s.buf| == 1024 && s.head < 1024
    ensures var o := CtlUdpAck(s, s.head, clk); var t := o.s;
      var overflows := SenderRuns.Overflows(clk(s.readings));
      var tooSoon := clk(s.readings) - s.buf[s.head].sentTs < s.rtt + overflows * 0x1_0000_0000;
      && !o.closed
      && (s.lastAckCnt < 2 ==> t == s.(lastAckCnt := s.lastAckCnt + 1))
      && (s.lastAckCnt >= 2 && tooSoon ==> t == s.(readings := s.readings + 1))
      && (s.lastAckCnt >= 2 && !tooSoon ==>
           && Lost(s, s.head, src, clk, t)
           && t == s.(lastAckCnt := 0, windowSize := 1, windowState := SlowStart, ssthresh := t.ssthresh,
                      sent := t.sent, readings := s.readings + 3,
                      buf := s.buf[s.head := s.buf[s.head].(sentTs := clk(s.readings + 2))]))
  {
    hide CtlUdpAck, Sane, TooNear, SenderRuns.Overflows, WdLost, Halved;
    OpenIsBuffered(s, src, clk);
    LossHalves(s.(lastAckCnt := 0, readings := s.readings + 1));
    DuplicateAckEffect(s, src, clk);
    SenderRuns.CountKeepsOpen(s, s.lastAckCnt + 1, src, clk);
    SenderRuns.TooNearExactly(s.(lastAckCnt := s.lastAckCnt + 1), src, clk);
    TooNearReads(s.(lastAckCnt := s.lastAckCnt + 1), src, clk);
  }

  lemma LossHalves(s: Sender)
    requires s.windowSize >= 0
    ensures WdLost(s) == s.(readings := s.readings + 1, windowSize := 1, windowState := SlowStart,
                            ssthresh := Halved(s.windowSize))
  {}

  lemma TooNearReads(s: Sender, src: seq<seq<byte>>, clk: Clock)
    requires Open(s, src, clk)
    ensures TooNear(s, s.head, s.head, clk).1 == s.readings + 1
  {
    hide TooNear;
    TooNearLooksAtHead(s, src, clk);
  }

  /** An older ACK changes nothing; one that covers the whole chunk closes the connection and sends nothing. */
  lemma OtherAckLaw(s: Sender, n: u32, src: seq<seq<byte>>, clk: Clock)
    requires Steady(clk) && Open(s, src, clk)
    ensures n < s.head ==> CtlUdpAck(s, n, clk) == Outcome(s, false)
    ensures n >= 1024 ==> CtlUdpAck(s, n, clk).closed && CtlUdpAck(s, n, clk).s.sent == s.sent
  {
    if n >= 1024 {
      hide RttAmongSamples;
      var w := TakeAck(s, n, clk).value;
      assert clk(s.readings) <= clk(s.readings + 1);
      RttIgnoresBuffer(s, w);
      ShiftHeadMoves(w, s.head, n, src, clk);
    }
  }

  // Ticks

  /** Packet k was sent more than 2000 microseconds ago, and all packets of the window before it more recently. */
  ghost predicate OldestOverdue(s: Sender, now: int, k: nat) {
    && |s.buf| == 1024 && s.head <= k < s.tail <= 1024
    && now - s.buf[k].sentTs > 2000
    && (forall j :: s.head <= j <= k ==> s.buf[j].sentTs != -1)
    && (forall j :: s.head <= j < k ==> now - s.buf[j].sentTs <= 2000)
  }

  lemma {:induction false} OverdueIsOldest(s: Sender, i: nat, now: int)
    requires |s.buf| == 1024 && s.head <= i && s.tail <= 1024
    requires forall j :: s.head <= j < i && j < s.tail ==> s.buf[j].sentTs != -1 && now - s.buf[j].sentTs <= 2000
    ensures match Overdue(s, i, now)
      case Some(k) => OldestOverdue(s, now, k)
      case None => forall k: nat :: !OldestOverdue(s, now, k)
    decreases s.tail - i
  {
    if i < s.tail && s.buf[i].sentTs != -1 && now - s.buf[i].sentTs <= 2000 {
      OverdueIsOldest(s, i + 1, now);
    } else if i >= s.tail || s.buf[i].sentTs == -1 {
      forall k: nat ensures !OldestOverdue(s, now, k) {}
    }
  }

  lemma OneOldest(s: Sender, now: int, k: nat, l: nat)
    requires OldestOverdue(s, now, k) && OldestOverdue(s, now, l)
    ensures k == l
  {}

  /** The state after a tick that found packet k overdue and resent less than five times. */
  ghost predicate Retried(s: Sender, k: nat, src: seq<seq<byte>>, clk: Clock, t: Sender)
    requires |src| == |s.buf| == 1024 && k < 1024 && s.windowSize >= 0
  {
    && Lost(s, k, src, clk, t)
    && t == s.(lastTick := clk(s.readings), windowSize := 1, windowState := SlowStart, ssthresh := t.ssthresh,
               sent := t.sent, readings := s.readings + (if k == s.head then 3 else 2), buf := t.buf)
    && t.buf == s.buf[k := Slot(Some(Data(k, src[k])), 0, if k == s.head then clk(s.readings + 2) else -1,
                                s.buf[k].resend + 1)]
  }

  lemma ResendLaw(s: Sender, u: Sender, k: nat, src: seq<seq<byte>>, clk: Clock)
    requires Open(s, src, clk) && s.head <= k < 1024
    requires u == s.(readings := s.readings + 1, lastTick := clk(s.readings))
    ensures |src| == |s.buf| == 1024 && s.buf[k].data.Some? && s.windowSize >= 0
    ensures var o := Resend(u, k, clk);
      && (o.closed <==> s.buf[k].resend == 5)
      && (o.closed ==> o.s == u.(buf := o.s.buf))
      && (!o.closed ==> Retried(s, k, src, clk, o.s))
  {
    hide Sane, WdLost, Halved;
    OpenIsBuffered(s, src, clk);
    LossHalves(u.(buf := s.buf[k := s.buf[k].(resend := s.buf[k].resend + 1)]));
  }

  /**
   * A tick acts if and only if twice the estimated round trip has passed since the last tick that did and some packet
   * is overdue; then the oldest such packet has been resent five times and the connection closes, or it is taken for
   * lost. Otherwise nothing is sent and no packet is touched.
   */
  lemma TickLaw(s: Sender, src: seq<seq<byte>>, clk: Clock)
    requires Steady(clk) && Open(s, src, clk)
    ensures |src| == |s.buf| == 1024 && s.windowSize >= 0
    ensures var o, now := CtlUdpTimeOut(s, clk), clk(s.readings);
      var due := now - s.lastTick >= 2 * s.rtt;
      && o.s.lastTick == (if due then now else s.lastTick)
      && (!due || (forall k: nat :: !OldestOverdue(s, now, k)) ==>
           !o.closed && o.s == s.(readings := s.readings + 1, lastTick := o.s.lastTick))
      && forall k: nat :: due && OldestOverdue(s, now, k) ==>
        && k < 1024
        && (o.closed <==> s.buf[k].resend == 5)
        && (o.closed ==> o.s.sent == s.sent && o.s.windowSize == s.windowSize)
        && (!o.closed ==> Retried(s, k, src, clk, o.s))
  {
    hide Sane, Overdue, OldestOverdue, Resend, Retried;
    OpenIsBuffered(s, src, clk);
    var now := clk(s.readings);
    OverdueIsOldest(s, s.head, now);
    if now - s.lastTick >= 2 * s.rtt {
      if k: nat :| OldestOverdue(s, now, k) {
        OneOldest(s, now, k, Overdue(s, s.head, now).value);
        OldestInRange(s, now, k);
        ResendLaw(s, s.(readings := s.readings + 1, lastTick := now), k, src, clk);
        RetriedAtNow(s, k, src, clk, CtlUdpTimeOut(s, clk).s);
        forall l: nat | OldestOverdue(s, now, l) ensures l == k {
          OneOldest(s, now, k, l);
        }
      }
    }
  }

  lemma OldestInRange(s: Sender, now: int, k: nat)
    requires OldestOverdue(s, now, k)
    ensures s.head <= k < s.tail <= 1024
  {}

  lemma RetriedAtNow(s: Sender, k: nat, src: seq<seq<byte>>, clk: Clock, t: Sender)
    requires |src| == |s.buf| == 1024 && k < 1024 && s.windowSize >= 0
    ensures Retried(s, k, src, clk, t) ==> t.lastTick == clk(s.readings)
  {
    hide Lost;
  }

  // The start

  /** A connection as send_chunk leaves it: packet 0 sent, all others waiting. */
  lemma FreshLaw(s: Sender, id: int, src: seq<seq<byte>>, clk: Clock)
    requires Steady(clk) && |src| == 1024
    ensures var t := SenderRuns.Fresh(s, id, src, clk);
      && t == Sender(false, id, s.peer, 0, 0, SlowStart, 64, 1, clk(s.readings), 0, 0, 0, 1024, t.buf,
                     s.readings + 2, [Data(0, src[0])], [])
      && |t.buf| == 1024
      && forall k :: 0 <= k < 1024 ==>
        t.buf[k] == Slot(Some(Data(k, src[k])), 0, if k == 0 then clk(s.readings + 1) else -1, 0)
  {
    hide Sane;
    InitIsSane(s, id, src, clk);
    var t := InitSender(s, id, clk);
    CtlUdpSendKeepsSane(t, src, clk);
    FillLaw(CtlUdpSend(t, Data(0, src[0]), clk), src, clk);
  }

  lemma {:induction false} FillLaw(s: Sender, src: seq<seq<byte>>, clk: Clock)
    requires Steady(clk) && Sane(s, src, clk) && s.windowSize == 1 && s.head == 0 && s.tail > 0
    ensures |s.buf| == |src| == 1024 && s.tail <= 1024
    ensures var t := SenderRuns.FillFrom(s, src, clk);
      && t == s.(buf := t.buf, tail := 1024) && |t.buf| == 1024
      && forall k :: 0 <= k < 1024 ==>
        t.buf[k] == if k < s.tail then s.buf[k] else Slot(Some(Data(k, src[k])), 0, -1, 0)
    decreases BUFFER_LEN - s.tail
  {
    hide Sane;
    SaneShape(s, src, clk);
    if s.tail < BUFFER_LEN {
      CtlUdpSendKeepsSane(s, src, clk);
      FillLaw(CtlUdpSend(s, Data(s.tail, src[s.tail]), clk), src, clk);
    }
  }
}
