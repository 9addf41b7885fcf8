/** The state of one upload connection (bt_sender_t) and what each function of send.c does to it. */
module SenderSpec {
  import opened Common

  const START_WINDOW_SIZE := 1
  const START_SSTHRESH_SIZE := 64
  const DUP_ACK_THRES := 3
  const ACK_TIMEOUT := 2000
  const BT_RTT_ALPHA := 8
  const RESEND_THRES: nat := 5

  /** A DATA packet: its sequence number and its payload. */
  datatype Data = Data(seqNum: u32, payload: seq<byte>)

  /** packet_pointer_t. `sentTs` is -1 while the packet waits to be sent. */
  datatype Slot = Slot(data: Option<Data>, ack: nat, sentTs: int, resend: nat)

  const EMPTY_SLOT := Slot(None, 0, 0, 0)

  datatype WindowState = SlowStart | CongCtl

  /**
   * bt_sender_t, with three logs: how often the clock was read, the packets handed to the network,
   * and the round-trip samples that passed the filters.
   */
  datatype Sender = Sender(
    isIdle: bool, id: int, peer: int, rtt: int, lastTick: int,
    windowState: WindowState, ssthresh: int, windowSize: int, lastUpdate: int,
    lastAckNum: int, lastAckCnt: int, head: nat, tail: nat, buf: seq<Slot>,
    readings: nat, sent: seq<Data>, samples: seq<int>)

  /** The next reading of the clock. */
  function Now(s: Sender, clk: Clock): int { clk(s.readings) }

  /** Buffer indices are in range and the slots from `from` to `tail` hold packets. */
  ghost predicate Shaped(s: Sender, from: nat) {
    && |s.buf| == BUFFER_LEN
    && s.head <= s.tail <= BUFFER_LEN
    && forall i :: from <= i < s.tail ==> s.buf[i].data.Some?
  }

  function EmptyBuffer(): (r: seq<Slot>)
    ensures |r| == BUFFER_LEN
    ensures forall i :: 0 <= i < BUFFER_LEN ==> r[i] == EMPTY_SLOT
  {
    seq(BUFFER_LEN, _ => EMPTY_SLOT)
  }

  function InitSender(s: Sender, id: int, clk: Clock): Sender {
    Sender(false, id, s.peer, 0, 0, SlowStart, START_SSTHRESH_SIZE, START_WINDOW_SIZE, Now(s, clk),
           0, 0, 0, 0, EmptyBuffer(), s.readings + 1, [], [])
  }

  function WdLost(s: Sender): Sender {
    s.(readings := s.readings + 1, windowSize := 1, windowState := SlowStart,
       ssthresh := if TruncDiv(s.windowSize, 2) > 2 then TruncDiv(s.windowSize, 2) else 2)
  }

  function WdAck(s: Sender, clk: Clock): Sender {
    var t := s.(readings := s.readings + 1);
    match s.windowState
    case SlowStart =>
      var w := s.windowSize + 1;
      t.(windowSize := w, windowState := if w > s.ssthresh then CongCtl else SlowStart, lastUpdate := Now(s, clk))
    case CongCtl =>
      if Now(s, clk) - s.lastUpdate >= s.rtt then
        t.(windowSize := s.windowSize + 1, lastUpdate := Now(s, clk))
      else t
  }

  function CtlSend(s: Sender, pos: nat, clk: Clock): Sender
    requires pos < |s.buf| && s.buf[pos].data.Some?
  {
    if pos - s.head < s.windowSize then
      s.(buf := s.buf[pos := s.buf[pos].(ack := 0, sentTs := Now(s, clk))],
         readings := s.readings + 1, sent := s.sent + [s.buf[pos].data.value])
    else
      s.(buf := s.buf[pos := s.buf[pos].(ack := 0, sentTs := -1)])
  }

  lemma CtlSendKeepsTail(s: Sender, pos: nat, clk: Clock)
    requires pos < |s.buf| && s.buf[pos].data.Some?
    ensures CtlSend(s, pos, clk).tail == s.tail
  {}

  function CtlUdpSend(s: Sender, packet: Data, clk: Clock): Sender
    requires s.tail < |s.buf|
  {
    var t := s.(buf := s.buf[s.tail := Slot(Some(packet), 0, -1, 0)]);
    var u := if s.tail - s.head < s.windowSize then CtlSend(t, s.tail, clk) else t;
    u.(tail := s.tail + 1)
  }

  /** The filters and the weighted mean of update_rtt. */
  function Accepts(rtt: int, sample: int): bool {
    !(sample * 5 < rtt) && !(rtt != 0 && TruncDiv(sample, 5) > rtt)
  }

  function Smooth(rtt: int, sample: int): int {
    if rtt == 0 then sample
    else TruncDiv(BT_RTT_ALPHA * rtt + (10 - BT_RTT_ALPHA) * sample, 10)
  }

  function UpdateRtt(s: Sender, sentTs: int, clk: Clock): Sender {
    var sample := Now(s, clk) - sentTs;
    var t := s.(readings := s.readings + 1);
    if Accepts(s.rtt, sample) then t.(rtt := Smooth(s.rtt, sample), samples := s.samples + [sample]) else t
  }

  /** check_too_near from index i on: the answer, and the clock readings used. The reading is cut to an `int`. */
  function TooNear(s: Sender, i: nat, ackNum: u32, clk: Clock): (r: (bool, nat))
    requires Shaped(s, i)
    decreases s.tail - i
  {
    if i >= s.tail then (false, s.readings)
    else if s.buf[i].data.value.seqNum == ackNum then
      if ToInt32(Now(s, clk)) - s.buf[i].sentTs < s.rtt then (true, s.readings + 1)
      else TooNear(s.(readings := s.readings + 1), i + 1, ackNum, clk)
    else TooNear(s, i + 1, ackNum, clk)
  }

  /** The duplicate-ACK branch of ctl_udp_ack. */
  function DuplicateAck(s: Sender, ackNum: u32, clk: Clock): Sender
    requires Shaped(s, s.head) && s.lastAckNum == s.head < s.tail
  {
    var cnt := s.lastAckCnt + 1;
    if cnt < DUP_ACK_THRES then s.(lastAckCnt := cnt)
    else
      var (near, readings) := TooNear(s.(lastAckCnt := cnt), s.head, ackNum, clk);
      if near then s.(lastAckCnt := cnt - 1, readings := readings)
      else
        var t := s.(lastAckCnt := 0, readings := readings);
        if s.lastAckNum < s.head + s.windowSize then CtlSend(WdLost(t), s.lastAckNum, clk) else t
  }

  /** The loop that moves the window's head past the acknowledged packets, from index i on. */
  function ShiftHead(s: Sender, i: nat, ackNum: u32, clk: Clock): Sender
    requires Shaped(s, i)
    decreases s.tail - i
  {
    if i < s.tail && s.buf[i].data.value.seqNum < ackNum then
      ShiftHead(Release(s, i, clk), i + 1, ackNum, clk)
    else s.(head := i)
  }

  /** One acknowledged packet: sampled if this is its first ACK, then freed. */
  function Release(s: Sender, i: nat, clk: Clock): Sender
    requires i < |s.buf|
  {
    var b := s.buf[i];
    var t := if b.ack + 1 == 1 then UpdateRtt(s, b.sentTs, clk) else s;
    t.(buf := s.buf[i := b.(ack := b.ack + 1, data := None)])
  }

  /** The loop that sends what the window newly covers, from index i on. */
  function SendWindow(s: Sender, i: nat, clk: Clock): Sender
    requires |s.buf| == BUFFER_LEN && s.tail <= BUFFER_LEN
    decreases s.tail - i
  {
    if i < s.tail && i - s.head < s.windowSize then
      SendWindow(if s.buf[i].data.Some? then CtlSend(s, i, clk) else s, i + 1, clk)
    else s
  }

  /** A handler's new state, and whether it called connection_closed. */
  datatype Outcome = Outcome(s: Sender, closed: bool)

  /** An open connection: filled with a whole chunk, and not all of it acknowledged. */
  ghost predicate Started(s: Sender) {
    Shaped(s, s.head) && s.lastAckNum == s.head < s.tail
  }

  /** What ctl_udp_ack does before it moves the head; None when the ACK is older than the last one. */
  function TakeAck(s: Sender, ackNum: u32, clk: Clock): Option<Sender>
    requires Started(s)
  {
    if ackNum == s.lastAckNum then Some(DuplicateAck(s, ackNum, clk))
    else if ackNum > s.lastAckNum then
      Some(WdAck(s.(lastAckNum := ToInt32(ackNum), lastAckCnt := 1), clk))
    else None
  }

  function CtlUdpAck(s: Sender, ackNum: u32, clk: Clock): Outcome
    requires Started(s)
  {
    var taken := TakeAck(s, ackNum, clk);
    if taken.None? then Outcome(s, false)
    else
      TakeAckKeepsBuffer(s, ackNum, clk);
      var t := ShiftHead(taken.value, s.head, ackNum, clk);
      if ackNum >= BUFFER_LEN then Outcome(t, true)
      else
        ShiftHeadShape(taken.value, s.head, ackNum, clk);
        var lastSent := s.head + s.windowSize;
        Outcome(SendWindow(t, if lastSent < t.head then t.head else lastSent, clk), false)
  }

  /** The first packet from index i on that ctl_udp_time_out finds overdue. */
  function Overdue(s: Sender, i: nat, now: int): (r: Option<nat>)
    requires s.tail <= |s.buf|
    ensures r.Some? ==> i <= r.value < s.tail
    decreases s.tail - i
  {
    if i >= s.tail || s.buf[i].sentTs == -1 then None
    else if now - s.buf[i].sentTs > ACK_TIMEOUT then Some(i)
    else Overdue(s, i + 1, now)
  }

  /** The time at which a tick is not skipped. */
  function Ticks(s: Sender, clk: Clock): bool {
    !s.isIdle && !(Now(s, clk) - s.lastTick < s.rtt * 2)
  }

  function CtlUdpTimeOut(s: Sender, clk: Clock): Outcome
    requires Shaped(s, s.head)
  {
    if s.isIdle then Outcome(s, false)
    else if !Ticks(s, clk) then Outcome(s.(readings := s.readings + 1), false)
    else
      var t := s.(readings := s.readings + 1, lastTick := Now(s, clk));
      match Overdue(s, s.head, Now(s, clk))
      case None => Outcome(t, false)
      case Some(i) =>
        Resend(t, i, clk)
  }

  /** The overdue packet i is counted, and sent again unless it was resent too often. */
  function Resend(s: Sender, i: nat, clk: Clock): Outcome
    requires i < |s.buf| && s.buf[i].data.Some?
  {
    var t := s.(buf := s.buf[i := s.buf[i].(resend := s.buf[i].resend + 1)]);
    if t.buf[i].resend > RESEND_THRES then Outcome(t, true)
    else Outcome(CtlSend(WdLost(t), i, clk), false)
  }

  lemma TakeAckKeepsBuffer(s: Sender, ackNum: u32, clk: Clock)
    requires Started(s)
    ensures var t := TakeAck(s, ackNum, clk);
      t.Some? ==> Shaped(t.value, s.head) && t.value.head == s.head && t.value.tail == s.tail
  {}

  lemma {:induction false} ShiftHeadShape(s: Sender, i: nat, ackNum: u32, clk: Clock)
    requires Shaped(s, i) && s.head <= i <= s.tail
    ensures var t := ShiftHead(s, i, ackNum, clk);
      Shaped(t, t.head) && i <= t.head && t.tail == s.tail
    decreases s.tail - i
  {
    if i < s.tail && s.buf[i].data.value.seqNum < ackNum {
      ShiftHeadShape(Release(s, i, clk), i + 1, ackNum, clk);
    }
  }
}
