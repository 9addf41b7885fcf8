/** Whole runs of an upload connection: any ACK numbers, any ticks, any steady clock. */
module SenderRuns {
  import opened Common
  import opened SenderSpec
  import opened SenderProofs

  datatype Event = AckEvent(ackNum: u32) | TickEvent

  ghost function Step(s: Sender, e: Event, clk: Clock): Outcome
    requires Started(s)
  {
    match e
    case AckEvent(n) => CtlUdpAck(s, n, clk)
    case TickEvent => CtlUdpTimeOut(s, clk)
  }

  lemma StepKeepsOpen(s: Sender, e: Event, src: seq<seq<byte>>, clk: Clock)
    requires Steady(clk) && Open(s, src, clk)
    ensures var o := Step(s, e, clk); !o.closed ==> Open(o.s, src, clk)
  {
    match e
    case AckEvent(n) => AckKeepsOpen(s, n, src, clk);
    case TickEvent => TickKeepsOpen(s, src, clk);
  }

  /** The state after the events, up to the one that closes the connection. */
  ghost function Run(s: Sender, es: seq<Event>, src: seq<seq<byte>>, clk: Clock): (o: Outcome)
    requires Steady(clk) && Open(s, src, clk)
    ensures !o.closed ==> Open(o.s, src, clk)
    decreases |es|
  {
    if es == [] then Outcome(s, false)
    else
      StepKeepsOpen(s, es[0], src, clk);
      var o := Step(s, es[0], clk);
      if o.closed then o else Run(o.s, es[1..], src, clk)
  }

  /** The buffer filled by send_chunk: packets n.. of the chunk handed to ctl_udp_send one after the other. */
  ghost function FillFrom(s: Sender, src: seq<seq<byte>>, clk: Clock): (t: Sender)
    requires Steady(clk) && Sane(s, src, clk)
    ensures Sane(t, src, clk) && t.tail == BUFFER_LEN && t.isIdle == s.isIdle && t.head == s.head
    decreases BUFFER_LEN - s.tail
  {
    if s.tail == BUFFER_LEN then s
    else
      CtlUdpSendKeepsSane(s, src, clk);
      FillFrom(CtlUdpSend(s, Data(s.tail, src[s.tail]), clk), src, clk)
  }

  /** A connection as send_chunk leaves it. */
  ghost function Fresh(s: Sender, id: int, src: seq<seq<byte>>, clk: Clock): (t: Sender)
    requires Steady(clk) && |src| == BUFFER_LEN
    ensures Open(t, src, clk) && t.head == 0
  {
    InitIsSane(s, id, src, clk);
    FillFrom(InitSender(s, id, clk), src, clk)
  }

  // Bounded retries

  /** How many more resends the packets from i to tail can take, counting the fatal one. */
  ghost function Potential(buf: seq<Slot>, i: nat, tail: nat): int
    requires tail <= |buf|
    decreases tail - i
  {
    if i >= tail then 0 else RESEND_THRES + 1 - buf[i].resend + Potential(buf, i + 1, tail)
  }

  ghost function Energy(s: Sender): int
    requires s.tail <= |s.buf|
  {
    Potential(s.buf, s.head, s.tail)
  }

  lemma {:induction false} PotentialSplit(buf: seq<Slot>, i: nat, k: nat, tail: nat)
    requires i <= k <= tail <= |buf|
    requires forall j :: i <= j < k ==> buf[j].resend <= RESEND_THRES
    ensures Potential(buf, i, tail) >= k - i + Potential(buf, k, tail)
    decreases k - i
  {
    if i < k {
      PotentialSplit(buf, i + 1, k, tail);
    }
  }

  lemma {:induction false} PotentialChange(b: seq<Slot>, c: seq<Slot>, i: nat, f: nat, tail: nat)
    requires tail <= |b| == |c|
    requires forall j :: i <= j < tail ==> c[j].resend == b[j].resend + if j == f then 1 else 0
    ensures Potential(c, i, tail) == Potential(b, i, tail) - if i <= f < tail then 1 else 0
    decreases tail - i
  {
    if i < tail {
      PotentialChange(b, c, i + 1, f, tail);
    }
  }

  lemma EnergyIsPositive(s: Sender, src: seq<seq<byte>>, clk: Clock)
    requires Open(s, src, clk)
    ensures Energy(s) > 0
  {
    PotentialSplit(s.buf, s.head, s.tail, s.tail);
  }

  /** The event is a new ACK, or a tick that finds an overdue packet. */
  ghost predicate Spends(s: Sender, e: Event, clk: Clock)
    requires Started(s)
  {
    match e
    case AckEvent(n) => n > s.lastAckNum
    case TickEvent => FiredAt(s, clk).Some?
  }

  /** An event that spends and does not close takes at least one unit of energy; no event adds any. */
  lemma StepSpends(s: Sender, e: Event, src: seq<seq<byte>>, clk: Clock)
    requires Steady(clk) && Open(s, src, clk)
    ensures var o := Step(s, e, clk); !o.closed ==>
      o.s.tail <= |o.s.buf| && Energy(o.s) + (if Spends(s, e, clk) then 1 else 0) <= Energy(s)
  {
    hide CtlUdpAck, CtlUdpTimeOut, Sane, Energy, FiredAt;
    match e
    case AckEvent(n) => AckSpends(s, n, src, clk);
    case TickEvent => TickSpends(s, src, clk);
  }

  lemma AckSpends(s: Sender, n: u32, src: seq<seq<byte>>, clk: Clock)
    requires Steady(clk) && Open(s, src, clk)
    ensures var o := CtlUdpAck(s, n, clk); !o.closed ==>
      o.s.tail <= |o.s.buf| && Energy(o.s) + (if n > s.lastAckNum then 1 else 0) <= Energy(s)
  {
    hide CtlUdpAck, RttAmongSamples, Live, Windowed;
    AckKeepsOpen(s, n, src, clk);
    var o := CtlUdpAck(s, n, clk);
    if s.head < n < BUFFER_LEN {
      NewAckEffect(s, n, src, clk);
      PotentialSplit(s.buf, s.head, n, s.tail);
      PotentialChange(s.buf, o.s.buf, n, s.tail, s.tail);
    } else if n == s.head {
      DuplicateAckResends(s, src, clk);
      PotentialChange(s.buf, o.s.buf, s.head, s.tail, s.tail);
    } else if n < s.head {
      OldAckIgnored(s, n, clk);
    }
  }

  lemma OldAckIgnored(s: Sender, n: u32, clk: Clock)
    requires Started(s) && n < s.lastAckNum
    ensures CtlUdpAck(s, n, clk) == Outcome(s, false)
  {}

  /** A duplicate ACK counts no resend. */
  lemma DuplicateAckResends(s: Sender, src: seq<seq<byte>>, clk: Clock)
    requires Steady(clk) && Open(s, src, clk)
    ensures var t := CtlUdpAck(s, s.head, clk).s;
      && t.head == s.head && t.tail == s.tail && |t.buf| == |s.buf|
      && forall k :: 0 <= k < |s.buf| ==> t.buf[k].resend == s.buf[k].resend
  {
    hide CtlUdpAck, DuplicateAck, RttAmongSamples, Live, Windowed;
    DuplicateAckEffect(s, src, clk);
    DuplicateAckCases(s, src, clk);
  }

  lemma TickSpends(s: Sender, src: seq<seq<byte>>, clk: Clock)
    requires Steady(clk) && Open(s, src, clk)
    ensures var o := CtlUdpTimeOut(s, clk); !o.closed ==>
      o.s.tail <= |o.s.buf| && Energy(o.s) + (if FiredAt(s, clk).Some? then 1 else 0) <= Energy(s)
  {
    hide CtlUdpTimeOut, RttAmongSamples, Live, Windowed, FiredAt;
    TickKeepsOpen(s, src, clk);
    var o := CtlUdpTimeOut(s, clk);
    if !o.closed && FiredAt(s, clk).Some? {
      PotentialChange(s.buf, o.s.buf, s.head, FiredAt(s, clk).value, s.tail);
    }
  }

  /** How many events of the run spend, the closing one included. */
  ghost function Spent(s: Sender, es: seq<Event>, src: seq<seq<byte>>, clk: Clock): nat
    requires Steady(clk) && Open(s, src, clk)
    decreases |es|
  {
    if es == [] then 0
    else
      StepKeepsOpen(s, es[0], src, clk);
      var o := Step(s, es[0], clk);
      (if Spends(s, es[0], clk) then 1 else 0) + if o.closed then 0 else Spent(o.s, es[1..], src, clk)
  }

  lemma {:induction false} SpentWithinEnergy(s: Sender, es: seq<Event>, src: seq<seq<byte>>, clk: Clock)
    requires Steady(clk) && Open(s, src, clk)
    ensures Spent(s, es, src, clk) <= Energy(s)
    decreases |es|
  {
    EnergyIsPositive(s, src, clk);
    if es != [] {
      StepKeepsOpen(s, es[0], src, clk);
      StepSpends(s, es[0], src, clk);
      var o := Step(s, es[0], clk);
      if !o.closed {
        SpentWithinEnergy(o.s, es[1..], src, clk);
      }
    }
  }

  /** A connection takes at most 6 * 1024 new ACKs and fired timeouts together, whatever the peer sends. */
  lemma RetriesAreBounded(s: Sender, id: int, es: seq<Event>, src: seq<seq<byte>>, clk: Clock)
    requires Steady(clk) && |src| == BUFFER_LEN
    ensures Spent(Fresh(s, id, src, clk), es, src, clk) <= 6 * BUFFER_LEN
  {
    var t := Fresh(s, id, src, clk);
    SpentWithinEnergy(t, es, src, clk);
    PotentialAtMost(t.buf, 0, t.tail);
  }

  lemma {:induction false} PotentialAtMost(buf: seq<Slot>, i: nat, tail: nat)
    requires i <= tail <= |buf|
    ensures Potential(buf, i, tail) <= 6 * (tail - i)
    decreases tail - i
  {
    if i < tail {
      PotentialAtMost(buf, i + 1, tail);
    }
  }

  // Round-trip estimate

  lemma StepKeepsRttPositive(s: Sender, e: Event, src: seq<seq<byte>>, clk: Clock)
    requires Steady(clk) && Open(s, src, clk) && s.rtt > 0
    ensures var o := Step(s, e, clk); !o.closed ==> o.s.rtt > 0
  {
    hide RttAmongSamples, Live;
    match e
    case AckEvent(n) =>
      if s.head < n < BUFFER_LEN {
        NewAckEffect(s, n, src, clk);
      } else if n == s.head {
        DuplicateAckEffect(s, src, clk);
        DuplicateAckKeepsSane(s, src, clk);
      }
    case TickEvent =>
  }

  /** Once positive the estimate stays positive, and it is always one of the values the accepted samples span. */
  lemma {:induction false} RttOverRun(s: Sender, es: seq<Event>, lo: int, hi: int, src: seq<seq<byte>>, clk: Clock)
    requires Steady(clk) && Open(s, src, clk)
    ensures var o := Run(s, es, src, clk); !o.closed ==>
      && (s.rtt > 0 ==> o.s.rtt > 0)
      && (o.s.samples != [] && Within(o.s.samples, lo, hi) ==> lo <= o.s.rtt <= hi)
    decreases |es|
  {
    if es != [] {
      StepKeepsOpen(s, es[0], src, clk);
      var o := Step(s, es[0], clk);
      if s.rtt > 0 {
        StepKeepsRttPositive(s, es[0], src, clk);
      }
      if !o.closed {
        RttOverRun(o.s, es[1..], lo, hi, src, clk);
      }
    }
  }

  // Congestion avoidance

  /** The connection stays in congestion avoidance, with an estimate of at least r, before every event of the run. */
  ghost predicate Avoiding(s: Sender, es: seq<Event>, r: int, src: seq<seq<byte>>, clk: Clock)
    requires Steady(clk) && Open(s, src, clk)
    decreases |es|
  {
    if s.windowState != CongCtl || s.rtt < r then false
    else if es == [] then true
    else
      StepKeepsOpen(s, es[0], src, clk);
      var o := Step(s, es[0], clk);
      !o.closed && Avoiding(o.s, es[1..], r, src, clk)
  }

  lemma StepGrowth(s: Sender, e: Event, src: seq<seq<byte>>, clk: Clock)
    requires Steady(clk) && Open(s, src, clk) && s.windowState == CongCtl
    ensures var o := Step(s, e, clk); !o.closed && o.s.windowState == CongCtl ==>
      || (o.s.windowSize == s.windowSize && o.s.lastUpdate == s.lastUpdate)
      || (o.s.windowSize == s.windowSize + 1 && o.s.lastUpdate - s.lastUpdate >= s.rtt)
  {
    hide RttAmongSamples, Live;
    match e
    case AckEvent(n) =>
      if s.head < n < BUFFER_LEN {
        NewAckGrowth(s, n, src, clk);
      } else if n == s.head {
        DuplicateAckEffect(s, src, clk);
        DuplicateAckKeepsSane(s, src, clk);
      }
    case TickEvent =>
  }

  lemma NewAckGrowth(s: Sender, n: u32, src: seq<seq<byte>>, clk: Clock)
    requires Steady(clk) && Open(s, src, clk) && s.head < n < BUFFER_LEN && s.windowState == CongCtl
    ensures var t := CtlUdpAck(s, n, clk).s;
      || (t.windowSize == s.windowSize && t.lastUpdate == s.lastUpdate)
      || (t.windowSize == s.windowSize + 1 && t.lastUpdate - s.lastUpdate >= s.rtt)
  {
    hide ShiftHead, SendWindow, RttAmongSamples, DuplicateAck;
    var w := TakeAck(s, n, clk).value;
    TakeNewAckEffect(s, n, src, clk);
    ShiftHeadMoves(w, s.head, n, src, clk);
    var t := ShiftHead(w, s.head, n, clk);
    SendWindowSends(t, if s.head + s.windowSize < n then n else s.head + s.windowSize, src, clk);
  }

  /** In an unbroken stretch of congestion avoidance the window grows by at most one packet per r of elapsed time. */
  lemma {:induction false} GrowthIsPaced(s: Sender, es: seq<Event>, r: nat, src: seq<seq<byte>>, clk: Clock)
    requires Steady(clk) && Open(s, src, clk) && Avoiding(s, es, r, src, clk)
    ensures var o := Run(s, es, src, clk);
      && !o.closed
      && (o.s.windowSize - s.windowSize) * r <= o.s.lastUpdate - s.lastUpdate <= clk(o.s.readings) - s.lastUpdate
    decreases |es|
  {
    hide CtlUdpAck, CtlUdpTimeOut;
    if es != [] {
      StepKeepsOpen(s, es[0], src, clk);
      StepGrowth(s, es[0], src, clk);
      var o := Step(s, es[0], clk);
      GrowthIsPaced(o.s, es[1..], r, src, clk);
      var p := Run(s, es, src, clk);
      PacesAdd(p.s.windowSize - o.s.windowSize, o.s.windowSize - s.windowSize, r);
    }
  }

  lemma PacesAdd(a: int, b: int, r: int)
    ensures (a + b) * r == a * r + b * r
    ensures b == 0 ==> b * r == 0
    ensures b == 1 ==> b * r == r
  {}

  // The fast retransmission and the width of `int`

  /** How often a clock reading overflows an `int`. */
  function Overflows(now: int): int {
    (now + TWO_TO_31) / TWO_TO_32
  }

  lemma OverflowsLate(now: nat)
    ensures Overflows(now) >= 0
    ensures Overflows(now) >= 1 <==> now >= TWO_TO_31
  {}

  lemma CutByOverflows(now: int)
    ensures ToInt32(now) == now - Overflows(now) * TWO_TO_32
  {}

  /**
   * check_too_near keeps the clock reading in an `int`. With k the number of times the reading overflowed it,
   * the head counts as sent too recently until k * 2^32 microseconds later than it should.
   */
  lemma TooNearExactly(s: Sender, src: seq<seq<byte>>, clk: Clock)
    requires Open(s, src, clk)
    ensures var k := Overflows(Now(s, clk));
      TooNear(s, s.head, s.head, clk).0 <==> Now(s, clk) - s.buf[s.head].sentTs < s.rtt + k * TWO_TO_32
  {
    hide Overflows, ToInt32, TooNear, RttAmongSamples;
    TooNearLooksAtHead(s, src, clk);
    CutByOverflows(Now(s, clk));
  }

  /** The answer is the intended one exactly when the clock still fits, or the delay is decisive either way. */
  lemma TooNearAsIntended(s: Sender, src: seq<seq<byte>>, clk: Clock)
    requires Open(s, src, clk)
    ensures var now := Now(s, clk); var elapsed := now - s.buf[s.head].sentTs;
      (TooNear(s, s.head, s.head, clk).0 <==> elapsed < s.rtt)
      <==>
      (now < TWO_TO_31 || elapsed < s.rtt || elapsed >= s.rtt + Overflows(now) * TWO_TO_32)
  {
    hide Overflows, TooNear, RttAmongSamples;
    OverflowsLate(Now(s, clk));
    TooNearExactly(s, src, clk);
  }

  /** After 2^31 microseconds of uptime a third duplicate ACK no longer resends a packet sent within the last 2^32. */
  lemma FastRetransmitFades(s: Sender, src: seq<seq<byte>>, clk: Clock)
    requires Steady(clk) && Open(s, src, clk)
    requires Now(s, clk) >= TWO_TO_31 && Now(s, clk) - s.buf[s.head].sentTs < TWO_TO_32
    ensures var o := CtlUdpAck(s, s.head, clk);
      o.s.sent == s.sent && o.s.windowSize == s.windowSize && o.s.buf == s.buf
  {
    hide CtlUdpAck, Overflows, TooNear;
    OverflowsLate(Now(s, clk));
    CountKeepsOpen(s, s.lastAckCnt + 1, src, clk);
    TooNearExactly(s.(lastAckCnt := s.lastAckCnt + 1), src, clk);
    DuplicateAckEffect(s, src, clk);
  }

  /** Filling goes on without reading the clock once the window of one packet is used up. */
  lemma {:induction false} FillOnlyBuffers(s: Sender, src: seq<seq<byte>>, clk: Clock)
    requires Steady(clk) && Sane(s, src, clk) && s.windowSize == 1 && s.head == 0 && s.tail > 0
    ensures var t := FillFrom(s, src, clk);
      t == s.(buf := t.buf, tail := BUFFER_LEN) && |t.buf| == |s.buf| == BUFFER_LEN && t.buf[0] == s.buf[0]
    decreases BUFFER_LEN - s.tail
  {
    hide Sane;
    SaneShape(s, src, clk);
    if s.tail < BUFFER_LEN {
      CtlUdpSendKeepsSane(s, src, clk);
      var t := CtlUdpSend(s, Data(s.tail, src[s.tail]), clk);
      AppendOnly(s, Data(s.tail, src[s.tail]), src, clk);
      FillOnlyBuffers(t, src, clk);
    }
  }

  lemma AppendOnly(s: Sender, packet: Data, src: seq<seq<byte>>, clk: Clock)
    requires Sane(s, src, clk) && s.windowSize == 1 && s.head == 0 && 0 < s.tail < BUFFER_LEN
    ensures |s.buf| == |src| == BUFFER_LEN
    ensures var t := CtlUdpSend(s, packet, clk);
      t == s.(buf := t.buf, tail := s.tail + 1) && |t.buf| == |s.buf| && t.buf[0] == s.buf[0]
  {
    hide RttAmongSamples;
  }

  /** A new connection: its first packet has been sent at the second reading of the clock. */
  lemma FreshState(s: Sender, id: int, src: seq<seq<byte>>, clk: Clock)
    requires Steady(clk) && |src| == BUFFER_LEN
    ensures var t := Fresh(s, id, src, clk);
      && t.rtt == 0 && t.lastAckCnt == 0 && t.windowSize == 1 && t.readings == s.readings + 2
      && |t.buf| == BUFFER_LEN && t.buf[0].sentTs == clk(s.readings + 1) && t.sent == [Data(0, src[0])]
  {
    InitIsSane(s, id, src, clk);
    var t := InitSender(s, id, clk);
    CtlUdpSendKeepsSane(t, src, clk);
    FillOnlyBuffers(CtlUdpSend(t, Data(0, src[0]), clk), src, clk);
  }

  lemma CountKeepsOpen(s: Sender, cnt: int, src: seq<seq<byte>>, clk: Clock)
    requires Steady(clk) && Open(s, src, clk)
    ensures Open(s.(lastAckCnt := cnt), src, clk)
  {
    hide Sane;
    LaterIsSane(s, s.(lastAckCnt := cnt), src, clk);
  }

  /** A duplicate ACK before the third is only counted. */
  lemma EarlyDuplicate(s: Sender, src: seq<seq<byte>>, clk: Clock)
    requires Steady(clk) && Open(s, src, clk) && s.lastAckCnt + 1 < DUP_ACK_THRES
    ensures CtlUdpAck(s, s.head, clk) == Outcome(s.(lastAckCnt := s.lastAckCnt + 1), false)
    ensures Open(s.(lastAckCnt := s.lastAckCnt + 1), src, clk)
  {
    hide CtlUdpAck, RttAmongSamples, TooNear;
    DuplicateAckEffect(s, src, clk);
    CountKeepsOpen(s, s.lastAckCnt + 1, src, clk);
  }

  /** The third sends the head again, if and only if check_too_near does not say that it was sent too recently. */
  lemma ThirdDuplicate(s: Sender, src: seq<seq<byte>>, clk: Clock)
    requires Steady(clk) && Open(s, src, clk) && s.lastAckCnt + 1 == DUP_ACK_THRES
    ensures var k := Overflows(Now(s, clk));
      CtlUdpAck(s, s.head, clk).s.sent == s.sent
        + if Now(s, clk) - s.buf[s.head].sentTs < s.rtt + k * TWO_TO_32 then [] else [Data(s.head, src[s.head])]
  {
    hide CtlUdpAck, RttAmongSamples, TooNear, Overflows;
    CountKeepsOpen(s, DUP_ACK_THRES, src, clk);
    TooNearExactly(s.(lastAckCnt := DUP_ACK_THRES), src, clk);
    DuplicateAckEffect(s, src, clk);
  }

  /** A clock that stood at `uptime` microseconds first and is a second later at each reading. */
  function Ticking(uptime: nat): Clock {
    n => uptime + n * 1_000_000
  }

  lemma TickingIsSteady(uptime: nat)
    ensures Steady(Ticking(uptime))
    ensures Ticking(uptime)(1) == uptime + 1_000_000 && Ticking(uptime)(2) == uptime + 2_000_000
  {}

  /** Two ACKs for packet 0, which has not arrived: they are counted. */
  lemma TwoDuplicates(s: Sender, src: seq<seq<byte>>, clk: Clock)
    requires Steady(clk) && |src| == BUFFER_LEN
    ensures var t := Fresh(s, 1, src, clk);
      Run(t, [AckEvent(0), AckEvent(0)], src, clk) == Outcome(t.(lastAckCnt := 2), false)
  {
    hide CtlUdpAck, Fresh, Open;
    var t := Fresh(s, 1, src, clk);
    FreshState(s, 1, src, clk);
    EarlyDuplicate(t, src, clk);
    var u := t.(lastAckCnt := 1);
    EarlyDuplicate(u, src, clk);
    var es := [AckEvent(0), AckEvent(0)];
    assert es[1..] == [AckEvent(0)] && [AckEvent(0)][1..] == [];
    assert Run(u, [AckEvent(0)], src, clk) == Outcome(t.(lastAckCnt := 2), false);
  }

  lemma ThirdDuplicateOfFresh(s: Sender, src: seq<seq<byte>>, clk: Clock)
    requires Steady(clk) && |src| == BUFFER_LEN
    ensures var o := Run(Fresh(s, 1, src, clk), [AckEvent(0), AckEvent(0)], src, clk);
      var sentAt, now := clk(s.readings + 1), clk(s.readings + 2);
      && !o.closed && o.s.lastAckCnt == DUP_ACK_THRES - 1 && o.s.head == 0 && o.s.rtt == 0
      && Now(o.s, clk) == now && |o.s.buf| == BUFFER_LEN && o.s.buf[0].sentTs == sentAt
      && CtlUdpAck(o.s, 0, clk).s.sent
         == o.s.sent + if now - sentAt < Overflows(now) * TWO_TO_32 then [] else [Data(0, src[0])]
  {
    hide CtlUdpAck, Fresh, Sane, Overflows, Run;
    FreshState(s, 1, src, clk);
    TwoDuplicates(s, src, clk);
    CountKeepsOpen(Fresh(s, 1, src, clk), 2, src, clk);
    ThirdDuplicate(Fresh(s, 1, src, clk).(lastAckCnt := 2), src, clk);
  }

  /**
   * A new connection gets three duplicate ACKs, the third a second after its first packet was sent. The packet is sent
   * again if and only if the clock is then still below 2^31 microseconds.
   */
  lemma FastRetransmitFadesExample(s: Sender, src: seq<seq<byte>>, uptime: nat)
    requires |src| == BUFFER_LEN && s.readings == 0
    ensures Steady(Ticking(uptime))
    ensures var clk := Ticking(uptime); var o := Run(Fresh(s, 1, src, clk), [AckEvent(0), AckEvent(0)], src, clk);
      && !o.closed && o.s.lastAckCnt == DUP_ACK_THRES - 1 && o.s.head == 0
      && Now(o.s, clk) - o.s.buf[0].sentTs == 1_000_000 > o.s.rtt
      && CtlUdpAck(o.s, 0, clk).s.sent
         == o.s.sent + if uptime + 2_000_000 < TWO_TO_31 then [Data(0, src[0])] else []
  {
    hide CtlUdpAck, Fresh, Open, Overflows, Run, Ticking, Steady;
    TickingIsSteady(uptime);
    OverflowsLate(uptime + 2_000_000);
    ThirdDuplicateOfFresh(s, src, Ticking(uptime));
  }
}
