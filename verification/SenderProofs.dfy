/** What every reachable state of an upload connection satisfies, from init_sender to connection_closed. */
module SenderProofs {
  import opened Common
  import opened SenderSpec

  /** The packets of the chunk `src` from number lo up to hi, none if lo >= hi. */
  function Packets(src: seq<seq<byte>>, lo: nat, hi: int): (r: seq<Data>)
    requires hi <= |src| == BUFFER_LEN
    ensures |r| == if lo < hi then hi - lo else 0
    ensures forall k :: 0 <= k < |r| ==> r[k] == Data(lo + k, src[lo + k])
  {
    if lo < hi then seq(hi - lo, k requires 0 <= k < hi - lo => Data(lo + k, src[lo + k])) else []
  }

  lemma PacketsFirst(src: seq<seq<byte>>, lo: nat, hi: int)
    requires lo < hi <= |src| == BUFFER_LEN
    ensures Packets(src, lo, hi) == [Data(lo, src[lo])] + Packets(src, lo + 1, hi)
  {}

  /** One past the last packet the window of `s` covers. */
  function WindowEnd(s: Sender): int {
    if s.head + s.windowSize < s.tail then s.head + s.windowSize else s.tail
  }

  /** Slot i holds packet i of the chunk for every i in [from, tail), not acknowledged and not given up. */
  ghost predicate Buffered(s: Sender, from: nat, src: seq<seq<byte>>, clk: Clock) {
    && |src| == |s.buf| == BUFFER_LEN
    && from <= s.tail <= BUFFER_LEN
    && forall i :: from <= i < s.tail ==>
      && s.buf[i].data == Some(Data(i, src[i]))
      && s.buf[i].ack == 0
      && s.buf[i].resend <= RESEND_THRES
      && -1 <= s.buf[i].sentTs <= clk(s.readings)
  }

  /** The packets in [from, to) carry the time of a real transmission. */
  ghost predicate Live(s: Sender, from: nat, to: int) {
    forall i :: from <= i < to && i < s.tail && i < |s.buf| ==> s.buf[i].sentTs >= 0
  }

  ghost predicate Within(samples: seq<int>, lo: int, hi: int) {
    forall k :: 0 <= k < |samples| ==> lo <= samples[k] <= hi
  }

  /** The estimate is unset before the first sample, and then lies among the accepted samples. */
  ghost predicate RttAmongSamples(s: Sender) {
    && s.rtt >= 0
    && (s.samples == [] ==> s.rtt == 0)
    && forall lo, hi :: s.samples != [] && Within(s.samples, lo, hi) ==> lo <= s.rtt <= hi
  }

  ghost predicate Windowed(s: Sender) {
    && 1 <= s.windowSize
    && s.ssthresh >= 2
    && (s.windowState == CongCtl <==> s.windowSize > s.ssthresh)
  }

  /** The invariant of a connection, filled or still being filled. */
  ghost predicate Sane(s: Sender, src: seq<seq<byte>>, clk: Clock) {
    && s.head == s.lastAckNum <= s.tail
    && Windowed(s) && s.windowSize <= s.lastAckNum + 1
    && s.lastUpdate <= clk(s.readings)
    && RttAmongSamples(s)
    && Buffered(s, s.head, src, clk)
    && Live(s, s.head, s.head + s.windowSize)
  }

  /** A connection with the whole chunk in its buffer, and not all of it acknowledged. */
  ghost predicate Open(s: Sender, src: seq<seq<byte>>, clk: Clock) {
    Sane(s, src, clk) && !s.isIdle && s.head < s.tail == BUFFER_LEN
  }

  lemma SaneShape(s: Sender, src: seq<seq<byte>>, clk: Clock)
    requires Sane(s, src, clk)
    ensures |s.buf| == |src| == BUFFER_LEN && s.head <= s.tail <= BUFFER_LEN
  {
    hide RttAmongSamples;
  }

  // From init_sender to the full buffer

  lemma InitIsSane(s: Sender, id: int, src: seq<seq<byte>>, clk: Clock)
    requires Steady(clk) && |src| == BUFFER_LEN
    ensures var t := InitSender(s, id, clk); Sane(t, src, clk) && t.tail == 0 && !t.isIdle
  {
    assert clk(s.readings) <= clk(s.readings + 1);
  }

  lemma CtlSendKeepsSane(s: Sender, pos: nat, src: seq<seq<byte>>, clk: Clock)
    requires Steady(clk) && Sane(s, src, clk) && s.head <= pos < s.tail
    ensures Sane(CtlSend(s, pos, clk), src, clk)
  {
    hide RttAmongSamples;
    assert clk(s.readings) <= clk(s.readings + 1);
    RttIgnoresBuffer(s, CtlSend(s, pos, clk));
  }

  lemma CtlUdpSendKeepsSane(s: Sender, src: seq<seq<byte>>, clk: Clock)
    requires Steady(clk) && Sane(s, src, clk) && s.tail < BUFFER_LEN
    ensures var t := CtlUdpSend(s, Data(s.tail, src[s.tail]), clk);
      Sane(t, src, clk) && t.tail == s.tail + 1
  {
    hide RttAmongSamples;
    assert clk(s.readings) <= clk(s.readings + 1);
    RttIgnoresBuffer(s, CtlUdpSend(s, Data(s.tail, src[s.tail]), clk));
  }

  lemma WdLostKeepsSane(s: Sender, src: seq<seq<byte>>, clk: Clock)
    requires Steady(clk) && Sane(s, src, clk)
    ensures Sane(WdLost(s), src, clk)
  {
    assert clk(s.readings) <= clk(s.readings + 1);
  }

  // ACKs

  /** An open connection has exactly one packet that matches a duplicate ACK: the one at its head. */
  lemma TooNearLooksAtHead(s: Sender, src: seq<seq<byte>>, clk: Clock)
    requires Buffered(s, s.head, src, clk) && s.head < s.tail
    ensures TooNear(s, s.head, s.head, clk)
      == (ToInt32(Now(s, clk)) - s.buf[s.head].sentTs < s.rtt, s.readings + 1)
  {
    hide ToInt32, Buffered;
    BufferedShape(s, s.head, src, clk);
    NoOtherMatch(s, s.head + 1, s.head, src, clk);
    NoOtherMatch(s.(readings := s.readings + 1), s.head + 1, s.head, src, clk);
  }

  lemma {:induction false} NoOtherMatch(s: Sender, i: nat, n: u32, src: seq<seq<byte>>, clk: Clock)
    requires n < i && Shaped(s, i)
    requires forall k :: i <= k < s.tail ==> s.buf[k].data.value.seqNum == k
    ensures TooNear(s, i, n, clk) == (false, s.readings)
    decreases s.tail - i
  {
    if i < s.tail {
      NoOtherMatch(s, i + 1, n, src, clk);
    }
  }

  /** A duplicate ACK only counts, or the window collapses and the head is sent again. */
  lemma DuplicateAckCases(s: Sender, src: seq<seq<byte>>, clk: Clock)
    requires Open(s, src, clk)
    ensures var d := DuplicateAck(s, s.head, clk);
      || d == CtlSend(WdLost(s.(lastAckCnt := 0, readings := s.readings + 1)), s.head, clk)
      || (d == s.(lastAckCnt := d.lastAckCnt, readings := d.readings) && s.readings <= d.readings <= s.readings + 1)
  {
    TooNearLooksAtHead(s.(lastAckCnt := s.lastAckCnt + 1), src, clk);
  }

  lemma LaterIsSane(s: Sender, t: Sender, src: seq<seq<byte>>, clk: Clock)
    requires Steady(clk) && Sane(s, src, clk) && s.readings <= t.readings
    requires t == s.(lastAckCnt := t.lastAckCnt, readings := t.readings, lastTick := t.lastTick)
    ensures Sane(t, src, clk)
  {
    RttIgnoresBuffer(s, t);
    assert clk(s.readings) <= clk(t.readings);
  }

  lemma DuplicateAckKeepsSane(s: Sender, src: seq<seq<byte>>, clk: Clock)
    requires Steady(clk) && Open(s, src, clk)
    ensures var d := DuplicateAck(s, s.head, clk);
      && Sane(d, src, clk) && d.head == s.head && d.tail == s.tail && d.rtt == s.rtt
      && (d.windowState != SlowStart ==>
           d.windowState == s.windowState && d.windowSize == s.windowSize && d.lastUpdate == s.lastUpdate)
  {
    hide DuplicateAck, RttAmongSamples;
    var d := DuplicateAck(s, s.head, clk);
    DuplicateAckCases(s, src, clk);
    var t := s.(lastAckCnt := 0, readings := s.readings + 1);
    LaterIsSane(s, t, src, clk);
    WdLostKeepsSane(t, src, clk);
    CtlSendKeepsSane(WdLost(t), s.head, src, clk);
    if d == s.(lastAckCnt := d.lastAckCnt, readings := d.readings) {
      LaterIsSane(s, d, src, clk);
    }
  }

  /** A sample folded in keeps the estimate among the samples. */
  lemma SmoothStaysAmong(rtt: int, sample: int, lo: int, hi: int)
    requires lo <= sample <= hi && (rtt == 0 || lo <= rtt <= hi) && rtt >= 0 && sample >= 0
    ensures lo <= Smooth(rtt, sample) <= hi
    ensures Smooth(rtt, sample) >= 0
    ensures rtt > 0 && Accepts(rtt, sample) ==> Smooth(rtt, sample) > 0
  {}

  lemma UpdateRttKeepsAmong(s: Sender, sentTs: int, clk: Clock)
    requires RttAmongSamples(s) && sentTs <= Now(s, clk)
    ensures var t := UpdateRtt(s, sentTs, clk);
      RttAmongSamples(t) && (s.rtt > 0 ==> t.rtt > 0)
  {
    var t := UpdateRtt(s, sentTs, clk);
    var sample := Now(s, clk) - sentTs;
    SmoothStaysAmong(s.rtt, sample, if sample < s.rtt then sample else s.rtt, if sample < s.rtt then s.rtt else sample);
    forall lo, hi | t.samples != [] && Within(t.samples, lo, hi)
      ensures lo <= t.rtt <= hi
    {
      if t.samples != s.samples {
        assert t.samples[|s.samples|] == sample;
        assert forall k :: 0 <= k < |s.samples| ==> t.samples[k] == s.samples[k];
        assert Within(s.samples, lo, hi);
        SmoothStaysAmong(s.rtt, sample, lo, hi);
      }
    }
  }

  /** What the loop that moves the head leaves alone. */
  ghost predicate SameButHead(s: Sender, t: Sender) {
    && t.windowState == s.windowState && t.ssthresh == s.ssthresh && t.windowSize == s.windowSize
    && t.lastAckNum == s.lastAckNum && t.tail == s.tail && t.isIdle == s.isIdle
    && t.sent == s.sent && t.lastUpdate == s.lastUpdate && |t.buf| == |s.buf|
    && s.readings <= t.readings
  }

  lemma ReleaseEffect(s: Sender, i: nat, src: seq<seq<byte>>, clk: Clock)
    requires Steady(clk) && Buffered(s, i, src, clk) && i < s.tail && RttAmongSamples(s)
    ensures var r := Release(s, i, clk);
      && SameButHead(s, r) && r.head == s.head
      && Buffered(r, i + 1, src, clk)
      && RttAmongSamples(r) && (s.rtt > 0 ==> r.rtt > 0)
      && forall k :: i < k < s.tail ==> r.buf[k] == s.buf[k]
  {
    hide RttAmongSamples, Accepts, Smooth;
    UpdateRttKeepsAmong(s, s.buf[i].sentTs, clk);
    RttIgnoresBuffer(UpdateRtt(s, s.buf[i].sentTs, clk), Release(s, i, clk));
    assert clk(s.readings) <= clk(s.readings + 1);
  }

  lemma RttIgnoresBuffer(s: Sender, t: Sender)
    requires RttAmongSamples(s) && t.rtt == s.rtt && t.samples == s.samples
    ensures RttAmongSamples(t)
  {}

  lemma {:induction false} ShiftHeadMoves(s: Sender, i: nat, n: u32, src: seq<seq<byte>>, clk: Clock)
    requires Steady(clk) && Buffered(s, i, src, clk) && s.head <= i && RttAmongSamples(s)
    ensures Shaped(s, i)
    ensures var t := ShiftHead(s, i, n, clk);
      && SameButHead(s, t)
      && t.head == (if n >= s.tail then s.tail else if n > i then n else i)
      && Buffered(t, t.head, src, clk)
      && RttAmongSamples(t) && (s.rtt > 0 ==> t.rtt > 0)
      && forall k :: t.head <= k < s.tail ==> t.buf[k] == s.buf[k]
    decreases s.tail - i
  {
    hide Release, RttAmongSamples, Buffered;
    BufferedShape(s, i, src, clk);
    if i < s.tail && s.buf[i].data.value.seqNum < n {
      ReleaseEffect(s, i, src, clk);
      ShiftHeadMoves(Release(s, i, clk), i + 1, n, src, clk);
    } else {
      BufferedDepends(s, s.(head := i), i, src, clk);
      RttIgnoresBuffer(s, s.(head := i));
    }
  }

  lemma BufferedDepends(s: Sender, t: Sender, from: nat, src: seq<seq<byte>>, clk: Clock)
    requires Buffered(s, from, src, clk) && t.buf == s.buf && t.tail == s.tail && t.readings == s.readings
    ensures Buffered(t, from, src, clk)
  {}

  lemma BufferedShape(s: Sender, from: nat, src: seq<seq<byte>>, clk: Clock)
    requires Buffered(s, from, src, clk) && s.head <= from
    ensures Shaped(s, from) && |src| == BUFFER_LEN && from <= s.tail
    ensures forall k :: from <= k < s.tail ==> s.buf[k].data == Some(Data(k, src[k]))
  {}

  /** What the loop that fills the window leaves alone. */
  ghost predicate SameButBuffer(s: Sender, t: Sender) {
    && SameButHead(s.(sent := t.sent), t)
    && t.head == s.head && t.rtt == s.rtt && t.samples == s.samples && t.lastAckCnt == s.lastAckCnt
    && forall k :: 0 <= k < |s.buf| ==> t.buf[k].resend == s.buf[k].resend
  }

  lemma SendOneEffect(s: Sender, i: nat, src: seq<seq<byte>>, clk: Clock)
    requires Steady(clk) && Buffered(s, s.head, src, clk) && s.head <= i < s.tail && i - s.head < s.windowSize
    requires Live(s, s.head, i)
    ensures var t := CtlSend(s, i, clk);
      && SameButBuffer(s, t) && t.sent == s.sent + [Data(i, src[i])]
      && Buffered(t, t.head, src, clk) && Live(t, t.head, i + 1)
  {
    assert clk(s.readings) <= clk(s.readings + 1);
  }

  /** The loop that fills the window sends, in order, the packets of the window from index i on. */
  lemma {:induction false} SendWindowSends(s: Sender, i: nat, src: seq<seq<byte>>, clk: Clock)
    requires Steady(clk) && Buffered(s, s.head, src, clk) && s.head <= i && s.windowSize >= 0
    requires Live(s, s.head, i)
    ensures var t := SendWindow(s, i, clk);
      && SameButBuffer(s, t)
      && Buffered(t, t.head, src, clk) && Live(t, t.head, t.head + t.windowSize)
      && t.sent == s.sent + Packets(src, i, WindowEnd(s))
    decreases s.tail - i
  {
    hide CtlSend, Packets, Buffered, Live, SameButBuffer, SendWindow;
    BufferedShape(s, s.head, src, clk);
    if i < s.tail && i - s.head < s.windowSize {
      SendOneEffect(s, i, src, clk);
      var u := CtlSend(s, i, clk);
      SameWindow(s, u);
      SendWindowStep(s, i, clk);
      SendWindowSends(u, i + 1, src, clk);
      SameButBufferJoins(s, u, SendWindow(u, i + 1, clk));
      PacketsFirst(src, i, WindowEnd(s));
      assert s.sent + Packets(src, i, WindowEnd(s)) == u.sent + Packets(src, i + 1, WindowEnd(s));
    } else {
      SendWindowStep(s, i, clk);
      SameAsItself(s);
      LiveToEnd(s, i);
      assert |Packets(src, i, WindowEnd(s))| == 0;
    }
  }

  lemma SendWindowStep(s: Sender, i: nat, clk: Clock)
    requires |s.buf| == BUFFER_LEN && s.tail <= BUFFER_LEN && i >= s.head
    ensures i < s.tail && i - s.head < s.windowSize && s.buf[i].data.Some? ==>
      SendWindow(s, i, clk) == SendWindow(CtlSend(s, i, clk), i + 1, clk)
    ensures !(i < s.tail && i - s.head < s.windowSize) ==> SendWindow(s, i, clk) == s
  {
    hide CtlSend;
  }

  lemma LiveToEnd(s: Sender, i: nat)
    requires Live(s, s.head, i) && !(i < s.tail && i - s.head < s.windowSize)
    ensures Live(s, s.head, s.head + s.windowSize)
  {}

  lemma SameWindow(s: Sender, u: Sender)
    requires SameButBuffer(s, u)
    ensures u.head == s.head && u.tail == s.tail && u.windowSize == s.windowSize && |u.buf| == |s.buf|
  {}

  lemma SameAsItself(s: Sender)
    ensures SameButBuffer(s, s)
  {}

  lemma SameButBufferJoins(s: Sender, t: Sender, u: Sender)
    requires SameButBuffer(s, t) && SameButBuffer(t, u)
    ensures SameButBuffer(s, u)
  {}

  /** The new-ACK branch: the head is the ACK, the window is live, and its new part has been sent. */
  lemma NewAckEffect(s: Sender, n: u32, src: seq<seq<byte>>, clk: Clock)
    requires Steady(clk) && Open(s, src, clk) && s.head < n < BUFFER_LEN
    ensures var o := CtlUdpAck(s, n, clk);
      && !o.closed && Open(o.s, src, clk) && o.s.head == n
      && (s.windowSize <= o.s.windowSize <= s.windowSize + 1)
      && (s.rtt > 0 ==> o.s.rtt > 0)
      && (forall k :: n <= k < BUFFER_LEN ==> o.s.buf[k].resend == s.buf[k].resend)
      && var from := if s.head + s.windowSize < n then n else s.head + s.windowSize;
         o.s.sent == s.sent + Packets(src, from, WindowEnd(o.s))
  {
    hide CtlUdpAck, ShiftHead, SendWindow, WdAck, DuplicateAck;
    hide RttAmongSamples, Buffered, Live, Windowed, SameButBuffer;
    BufferedShape(s, s.head, src, clk);
    NewAckUnfolds(s, n, clk);
    var w := TakeAck(s, n, clk).value;
    TakeNewAckEffect(s, n, src, clk);
    ShiftHeadMoves(w, s.head, n, src, clk);
    var t := ShiftHead(w, s.head, n, clk);
    var from := if s.head + s.windowSize < n then n else s.head + s.windowSize;
    LiveBeyond(s, t, n, from);
    SendWindowSends(t, from, src, clk);
    NewAckOpens(w, t, SendWindow(t, from, clk), src, clk);
  }

  lemma NewAckUnfolds(s: Sender, n: u32, clk: Clock)
    requires Started(s) && s.lastAckNum < n < BUFFER_LEN
    ensures TakeAck(s, n, clk).Some? && Shaped(TakeAck(s, n, clk).value, s.head)
    ensures var t := ShiftHead(TakeAck(s, n, clk).value, s.head, n, clk);
      var from := s.head + s.windowSize;
      && |t.buf| == BUFFER_LEN && t.tail <= BUFFER_LEN
      && CtlUdpAck(s, n, clk) == Outcome(SendWindow(t, if from < t.head then t.head else from, clk), false)
  {
    hide ShiftHead, SendWindow, WdAck;
    TakeAckKeepsBuffer(s, n, clk);
    ShiftHeadShape(TakeAck(s, n, clk).value, s.head, n, clk);
  }

  lemma LiveBeyond(s: Sender, t: Sender, n: nat, from: nat)
    requires Live(s, s.head, s.head + s.windowSize) && s.head <= n && t.tail == s.tail && |t.buf| == |s.buf|
    requires forall k :: n <= k < s.tail && k < |s.buf| ==> t.buf[k] == s.buf[k]
    requires from <= n || from <= s.head + s.windowSize
    ensures Live(t, n, from)
  {}

  lemma NewAckOpens(w: Sender, t: Sender, u: Sender, src: seq<seq<byte>>, clk: Clock)
    requires Steady(clk) && Windowed(w) && w.lastUpdate <= clk(w.readings)
    requires w.lastAckNum == t.head < t.tail == BUFFER_LEN
    requires SameButHead(w, t) && SameButBuffer(t, u) && RttAmongSamples(t) && w.windowSize <= w.lastAckNum + 1
    requires !w.isIdle
    requires Buffered(u, u.head, src, clk) && Live(u, u.head, u.head + u.windowSize)
    ensures Open(u, src, clk) && u.head == t.head && u.windowSize == w.windowSize && u.rtt == t.rtt
    ensures |u.buf| == |t.buf| && forall k :: 0 <= k < |t.buf| ==> u.buf[k].resend == t.buf[k].resend
  {
    hide RttAmongSamples, Buffered, Live;
    RttIgnoresBuffer(t, u);
    assert clk(w.readings) <= clk(t.readings) <= clk(u.readings);
  }

  lemma TakeNewAckEffect(s: Sender, n: u32, src: seq<seq<byte>>, clk: Clock)
    requires Steady(clk) && Open(s, src, clk) && s.head < n < BUFFER_LEN
    ensures var w := TakeAck(s, n, clk);
      && w.Some?
      && w.value == s.(lastAckNum := n, lastAckCnt := 1, readings := s.readings + 1, windowState := w.value.windowState,
                       windowSize := w.value.windowSize, lastUpdate := w.value.lastUpdate)
      && Windowed(w.value) && s.windowSize <= w.value.windowSize <= s.windowSize + 1
      && RttAmongSamples(w.value) && Buffered(w.value, s.head, src, clk)
      && w.value.lastUpdate <= clk(w.value.readings)
  {
    RttIgnoresBuffer(s, TakeAck(s, n, clk).value);
    assert clk(s.readings) <= clk(s.readings + 1);
  }

  /** A duplicate ACK moves nothing and, beyond at most one retransmission of the head, sends nothing. */
  lemma DuplicateAckEffect(s: Sender, src: seq<seq<byte>>, clk: Clock)
    requires Steady(clk) && Open(s, src, clk)
    ensures CtlUdpAck(s, s.head, clk) == Outcome(DuplicateAck(s, s.head, clk), false)
    ensures Open(CtlUdpAck(s, s.head, clk).s, src, clk)
  {
    DuplicateAckKeepsSane(s, src, clk);
    var d := DuplicateAck(s, s.head, clk);
    assert d.buf[s.head].data == Some(Data(s.head, src[s.head]));
    assert ShiftHead(d, s.head, s.head, clk) == d;
    assert d.windowSize == s.windowSize || d.windowSize == 1;
    assert SendWindow(d, s.head + s.windowSize, clk) == d;
  }

  /** For every ACK number, an open connection stays open; it closes exactly on an ACK of the whole chunk or more. */
  lemma AckKeepsOpen(s: Sender, n: u32, src: seq<seq<byte>>, clk: Clock)
    requires Steady(clk) && Open(s, src, clk)
    ensures var o := CtlUdpAck(s, n, clk);
      && (o.closed <==> n >= BUFFER_LEN)
      && (!o.closed ==> Open(o.s, src, clk) && o.s.head == if n > s.head then n else s.head)
  {
    if n == s.head {
      DuplicateAckEffect(s, src, clk);
    } else if s.head < n < BUFFER_LEN {
      NewAckEffect(s, n, src, clk);
    }
  }

  // Timeouts

  lemma ResendEffect(s: Sender, i: nat, src: seq<seq<byte>>, clk: Clock)
    requires Steady(clk) && Open(s, src, clk) && s.head <= i < s.tail
    ensures var o := Resend(s, i, clk);
      && (o.closed <==> s.buf[i].resend == RESEND_THRES)
      && (!o.closed ==>
           && Open(o.s, src, clk) && o.s.head == s.head && o.s.windowSize == 1
           && o.s.sent == s.sent + (if i == s.head then [Data(i, src[i])] else [])
           && forall k :: 0 <= k < BUFFER_LEN ==> o.s.buf[k].resend == s.buf[k].resend + if k == i then 1 else 0)
  {
    hide Sane;
    OpenSlot(s, i, src, clk);
    if s.buf[i].resend < RESEND_THRES {
      CountKeepsSane(s, i, src, clk);
      var t := s.(buf := s.buf[i := s.buf[i].(resend := s.buf[i].resend + 1)]);
      WdLostKeepsSane(t, src, clk);
      CtlSendKeepsSane(WdLost(t), i, src, clk);
    }
  }

  lemma OpenSlot(s: Sender, i: nat, src: seq<seq<byte>>, clk: Clock)
    requires Sane(s, src, clk) && s.head <= i < s.tail
    ensures |s.buf| == |src| == BUFFER_LEN && s.tail <= BUFFER_LEN
    ensures s.buf[i].data == Some(Data(i, src[i])) && s.buf[i].resend <= RESEND_THRES
  {
    hide RttAmongSamples;
  }

  lemma CountKeepsSane(s: Sender, i: nat, src: seq<seq<byte>>, clk: Clock)
    requires Sane(s, src, clk) && s.head <= i < s.tail && i < |s.buf| && s.buf[i].resend < RESEND_THRES
    ensures Sane(s.(buf := s.buf[i := s.buf[i].(resend := s.buf[i].resend + 1)]), src, clk)
  {
    hide RttAmongSamples;
    RttIgnoresBuffer(s, s.(buf := s.buf[i := s.buf[i].(resend := s.buf[i].resend + 1)]));
  }

  /** The packet on which the next tick acts, if any. */
  function FiredAt(s: Sender, clk: Clock): (r: Option<nat>)
    requires s.tail <= |s.buf|
    ensures r.Some? ==> s.head <= r.value < s.tail
  {
    if Ticks(s, clk) then Overdue(s, s.head, Now(s, clk)) else None
  }

  /** That packet was sent more than two milliseconds ago, and every earlier one more recently. */
  lemma FiredAtOldest(s: Sender, clk: Clock)
    requires s.tail <= |s.buf|
    ensures var r := FiredAt(s, clk); r.Some? ==>
      && Now(s, clk) - s.buf[r.value].sentTs > ACK_TIMEOUT
      && forall k :: s.head <= k < r.value ==> Now(s, clk) - s.buf[k].sentTs <= ACK_TIMEOUT
  {
    OverdueIsOldest(s, s.head, Now(s, clk));
  }

  lemma {:induction false} OverdueIsOldest(s: Sender, i: nat, now: int)
    requires s.tail <= |s.buf|
    ensures var r := Overdue(s, i, now); r.Some? ==>
      && now - s.buf[r.value].sentTs > ACK_TIMEOUT
      && forall k :: i <= k < r.value ==> now - s.buf[k].sentTs <= ACK_TIMEOUT
    decreases s.tail - i
  {
    if i < s.tail && Overdue(s, i, now) != Some(i) {
      OverdueIsOldest(s, i + 1, now);
    }
  }

  /** A tick keeps an open connection open, except one that finds a packet already resent five times. */
  lemma TickKeepsOpen(s: Sender, src: seq<seq<byte>>, clk: Clock)
    requires Steady(clk) && Open(s, src, clk)
    ensures var o := CtlUdpTimeOut(s, clk); var f := FiredAt(s, clk);
      && (o.closed <==> f.Some? && s.buf[f.value].resend == RESEND_THRES)
      && (!o.closed ==> Open(o.s, src, clk) && o.s.head == s.head)
      && (!o.closed && f.None? ==> o.s.sent == s.sent && o.s.buf == s.buf)
      && (!o.closed && f.Some? ==>
           && o.s.sent == s.sent + (if f.value == s.head then [Data(f.value, src[f.value])] else [])
           && forall k :: 0 <= k < BUFFER_LEN ==> o.s.buf[k].resend == s.buf[k].resend + if k == f.value then 1 else 0)
  {
    hide Resend, Sane, Overdue;
    SaneShape(s, src, clk);
    OpenSlot(s, s.head, src, clk);
    LaterIsSane(s, s.(readings := s.readings + 1), src, clk);
    var t := s.(readings := s.readings + 1, lastTick := Now(s, clk));
    LaterIsSane(s, t, src, clk);
    var f := FiredAt(s, clk);
    if f.Some? {
      ResendEffect(t, f.value, src, clk);
    }
  }
}
