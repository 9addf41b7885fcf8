/** send.c: the sender as an object updated in place, each method proved to compute its SenderSpec function. */
module Send {
  import opened Common
  import opened SenderSpec

  class BtSender {
    var isIdle: bool
    var id: int
    var peer: int
    var rtt: int
    var lastTick: int
    var windowState: WindowState
    var ssthresh: int
    var windowSize: int
    var lastUpdate: int
    var lastAckNum: int
    var lastAckCnt: int
    var head: nat
    var tail: nat
    const pktBuf: array<Slot>

    const clock: Clock
    var readings: nat
    ghost var sent: seq<Data>
    ghost var samples: seq<int>

    ghost function State(): Sender
      reads this, pktBuf
    {
      Sender(isIdle, id, peer, rtt, lastTick, windowState, ssthresh, windowSize, lastUpdate,
             lastAckNum, lastAckCnt, head, tail, pktBuf[..], readings, sent, samples)
    }

    /** A slot of the global array `senders`, idle until its first connection. */
    constructor (clock: Clock)
      ensures fresh(pktBuf) && pktBuf.Length == BUFFER_LEN
      ensures isIdle && this.clock == clock
    {
      this.clock := clock;
      isIdle := true;
      id, peer, rtt, lastTick := 0, 0, 0, 0;
      windowState, ssthresh, windowSize, lastUpdate := SlowStart, 0, 0, 0;
      lastAckNum, lastAckCnt, head, tail := 0, 0, 0, 0;
      pktBuf := new Slot[BUFFER_LEN](_ => EMPTY_SLOT);
      readings, sent, samples := 0, [], [];
    }

    /** my_get_time */
    method MyGetTime() returns (t: int)
      modifies this`readings
      ensures t == clock(old(readings)) && readings == old(readings) + 1
    {
      t := clock(readings);
      readings := readings + 1;
    }

    /** send_packet */
    ghost method SendPacket(packet: Data)
      modifies this`sent
      ensures sent == old(sent) + [packet]
    {
      sent := sent + [packet];
    }

    method InitSender(id: int)
      requires pktBuf.Length == BUFFER_LEN
      modifies this, pktBuf
      ensures State() == SenderSpec.InitSender(old(State()), id, clock)
    {
      hide EmptyBuffer;
      ClearBuffer();
      tail, head := 0, 0;
      windowSize := START_WINDOW_SIZE;
      windowState := SlowStart;
      ssthresh := START_SSTHRESH_SIZE;
      lastUpdate := MyGetTime();
      ResetCounters(id);
    }

    /** The second half of init_sender. */
    method ResetCounters(id: int)
      modifies this
      ensures State() == old(State()).(id := id, lastAckNum := 0, lastAckCnt := 0, isIdle := false, rtt := 0,
                                       lastTick := 0, sent := [], samples := [])
    {
      this.id := id;
      lastAckNum, lastAckCnt := 0, 0;
      ResetTimes();
    }

    method ResetTimes()
      modifies this
      ensures State() == old(State()).(isIdle := false, rtt := 0, lastTick := 0, sent := [], samples := [])
    {
      isIdle := false;
      rtt := 0;
      lastTick := 0;
      sent, samples := [], [];
    }

    method ClearBuffer()
      requires pktBuf.Length == BUFFER_LEN
      modifies pktBuf
      ensures pktBuf[..] == EmptyBuffer()
    {
      forall i | 0 <= i < pktBuf.Length {
        pktBuf[i] := EMPTY_SLOT;
      }
    }

    method WdLost()
      modifies this
      ensures State() == SenderSpec.WdLost(old(State()))
    {
      hide TruncDiv;
      var oldSize := windowSize;
      var curTime := MyGetTime();
      match windowState
      case SlowStart =>
        windowSize := 1;
        ssthresh := if TruncDiv(oldSize, 2) > 2 then TruncDiv(oldSize, 2) else 2;
      case CongCtl =>
        windowSize := 1;
        ssthresh := if TruncDiv(oldSize, 2) > 2 then TruncDiv(oldSize, 2) else 2;
        windowState := SlowStart;
    }

    method WdAck()
      modifies this
      ensures State() == SenderSpec.WdAck(old(State()), clock)
    {
      var curClock := MyGetTime();
      match windowState
      case SlowStart =>
        windowSize := windowSize + 1;
        if windowSize > ssthresh {
          windowState := CongCtl;
        }
        lastUpdate := curClock;
      case CongCtl =>
        var timeInterval := curClock - lastUpdate;
        if timeInterval >= rtt {
          windowSize := windowSize + 1;
          lastUpdate := curClock;
        }
    }

    method CtlSend(pos: nat) returns (ret: int)
      requires pos < pktBuf.Length && pktBuf[pos].data.Some?
      modifies this, pktBuf
      ensures State() == SenderSpec.CtlSend(old(State()), pos, clock)
      ensures ret == if pos - head < windowSize then 0 else -1
    {
      pktBuf[pos] := pktBuf[pos].(ack := 0);
      if pos - head < windowSize {
        var now := MyGetTime();
        pktBuf[pos] := pktBuf[pos].(sentTs := now);
        SendPacket(pktBuf[pos].data.value);
        ret := 0;
      } else {
        pktBuf[pos] := pktBuf[pos].(sentTs := -1);
        ret := -1;
      }
    }

    method CtlUdpSend(newPacket: Option<Data>) returns (ret: int)
      requires tail < pktBuf.Length
      modifies this, pktBuf
      ensures newPacket.None? ==> ret == -1 && State() == old(State())
      ensures newPacket.Some? ==> ret == 0 && State() == SenderSpec.CtlUdpSend(old(State()), newPacket.value, clock)
    {
      hide SenderSpec.CtlSend;
      if newPacket.None? {
        return -1;
      }
      pktBuf[tail] := pktBuf[tail].(data := newPacket);
      pktBuf[tail] := pktBuf[tail].(ack := 0);
      pktBuf[tail] := pktBuf[tail].(sentTs := -1);
      pktBuf[tail] := pktBuf[tail].(resend := 0);
      assert pktBuf[..] == old(pktBuf[..])[tail := Slot(newPacket, 0, -1, 0)];
      if tail - head < windowSize {
        CtlSendKeepsTail(State(), tail, clock);
        var _ := CtlSend(tail);
      }
      tail := tail + 1;
      ret := 0;
    }

    method UpdateRtt(sentTs: int)
      modifies this
      ensures State() == SenderSpec.UpdateRtt(old(State()), sentTs, clock)
    {
      hide TruncDiv;
      var curTime := MyGetTime();
      var newRtt := curTime - sentTs;
      if newRtt * 5 < rtt {
        return;
      }
      if rtt != 0 && TruncDiv(newRtt, 5) > rtt {
        return;
      }
      if rtt == 0 {
        rtt := newRtt;
      } else {
        rtt := TruncDiv(BT_RTT_ALPHA * rtt + (10 - BT_RTT_ALPHA) * newRtt, 10);
      }
      samples := samples + [newRtt];
    }

    method CheckTooNear(ackNum: u32) returns (near: bool)
      requires Shaped(State(), head)
      modifies this`readings
      ensures (near, readings) == TooNear(old(State()), head, ackNum, clock)
    {
      ghost var s := State();
      var i := head;
      while i < tail
        invariant head <= i <= tail && Shaped(State(), i)
        invariant TooNear(State(), i, ackNum, clock) == TooNear(s, head, ackNum, clock)
      {
        if pktBuf[i].data.value.seqNum == ackNum {
          var now := MyGetTime();
          var curTime := ToInt32(now);
          if curTime - pktBuf[i].sentTs < rtt {
            return true;
          }
        }
        i := i + 1;
      }
      near := false;
    }

    /** ctl_udp_ack; `closing` says that it ended in connection_closed(peer). */
    method CtlUdpAck(ackNum: u32) returns (closing: bool)
      requires Started(State())
      modifies this, pktBuf
      ensures Outcome(State(), closing) == SenderSpec.CtlUdpAck(old(State()), ackNum, clock)
    {
      hide ShiftHead, SendWindow, DuplicateAck, SenderSpec.WdAck;
      ghost var s := State();
      var lastSent := head + windowSize;
      var taken := TakeAck(ackNum);
      if !taken {
        return false;
      }
      ghost var t := State();
      TakeAckKeepsBuffer(s, ackNum, clock);
      ReleaseAcked(ackNum);
      if ackNum >= BUFFER_LEN {
        return true;
      }
      ShiftHeadShape(t, t.head, ackNum, clock);
      var i := lastSent;
      if i < head {
        i := head;
      }
      FillWindow(i);
      closing := false;
    }

    /** The first half of ctl_udp_ack: duplicate, new or old. */
    method TakeAck(ackNum: u32) returns (taken: bool)
      requires Started(State())
      modifies this, pktBuf
      ensures (if taken then Some(State()) else None) == SenderSpec.TakeAck(old(State()), ackNum, clock)
      ensures !taken ==> State() == old(State())
    {
      hide Accepts, Smooth, SenderSpec.CtlSend;
      ghost var s := State();
      if ackNum == lastAckNum {
        lastAckCnt := lastAckCnt + 1;
        if lastAckCnt >= DUP_ACK_THRES {
          var near := CheckTooNear(ackNum);
          if near {
            lastAckCnt := lastAckCnt - 1;
          } else {
            lastAckCnt := 0;
            assert State() == s.(lastAckCnt := 0, readings := readings);
            if lastAckNum < head + windowSize {
              WdLost();
              var _ := CtlSend(lastAckNum);
            }
          }
        }
      } else if ackNum > lastAckNum {
        lastAckNum := ToInt32(ackNum);
        lastAckCnt := 1;
        assert State() == s.(lastAckNum := ToInt32(ackNum), lastAckCnt := 1);
        WdAck();
      } else {
        return false;
      }
      taken := true;
    }

    /** The loop of ctl_udp_ack that frees acknowledged packets and moves the head. */
    method ReleaseAcked(ackNum: u32)
      requires Shaped(State(), head)
      modifies this, pktBuf
      ensures State() == ShiftHead(old(State()), old(head), ackNum, clock)
    {
      hide SenderSpec.Release;
      ghost var s := State();
      var i := head;
      while i < tail
        invariant head == s.head <= i <= tail && Shaped(State(), i)
        invariant ShiftHead(State(), i, ackNum, clock) == ShiftHead(s, s.head, ackNum, clock)
      {
        if pktBuf[i].data.value.seqNum < ackNum {
          Release(i);
        } else {
          break;
        }
        i := i + 1;
      }
      head := i;
    }

    method Release(i: nat)
      requires i < pktBuf.Length
      modifies this, pktBuf
      ensures State() == SenderSpec.Release(old(State()), i, clock)
      ensures head == old(head) && tail == old(tail)
      ensures forall j :: 0 <= j < pktBuf.Length && j != i ==> pktBuf[j] == old(pktBuf[j])
    {
      hide Accepts, Smooth;
      pktBuf[i] := pktBuf[i].(ack := pktBuf[i].ack + 1);
      if pktBuf[i].ack == 1 {
        UpdateRtt(pktBuf[i].sentTs);
      }
      pktBuf[i] := pktBuf[i].(data := None);
    }

    /** The loop of ctl_udp_ack that sends what the window newly covers. */
    method FillWindow(start: nat)
      requires Shaped(State(), head)
      modifies this, pktBuf
      ensures State() == SendWindow(old(State()), start, clock)
    {
      ghost var s := State();
      var i := start;
      while i < tail && i - head < windowSize
        decreases tail - i
        invariant start <= i && pktBuf.Length == BUFFER_LEN && tail <= BUFFER_LEN
        invariant SendWindow(State(), i, clock) == SendWindow(s, start, clock)
      {
        if pktBuf[i].data.Some? {
          var _ := CtlSend(i);
        }
        i := i + 1;
      }
    }

    /** ctl_udp_time_out; `closing` says that it called connection_closed(peer). */
    method CtlUdpTimeOut() returns (closing: bool)
      requires Shaped(State(), head)
      modifies this, pktBuf
      ensures Outcome(State(), closing) == SenderSpec.CtlUdpTimeOut(old(State()), clock)
    {
      hide SenderSpec.Resend;
      ghost var s := State();
      if isIdle {
        return false;
      }
      var curTime := MyGetTime();
      if curTime - lastTick < rtt * 2 {
        return false;
      }
      lastTick := curTime;
      var i := head;
      while i < tail
        invariant head <= i <= tail
        invariant State() == s.(readings := s.readings + 1, lastTick := curTime)
        invariant Overdue(s, i, curTime) == Overdue(s, head, curTime)
      {
        if pktBuf[i].sentTs == -1 {
          break;
        }
        if curTime - pktBuf[i].sentTs > ACK_TIMEOUT {
          closing := Resend(i);
          return;
        }
        i := i + 1;
      }
      closing := false;
    }

    method Resend(i: nat) returns (closing: bool)
      requires i < pktBuf.Length && pktBuf[i].data.Some?
      modifies this, pktBuf
      ensures Outcome(State(), closing) == SenderSpec.Resend(old(State()), i, clock)
    {
      hide SenderSpec.WdLost, SenderSpec.CtlSend;
      pktBuf[i] := pktBuf[i].(resend := pktBuf[i].resend + 1);
      if pktBuf[i].resend > RESEND_THRES {
        return true;
      } else {
        WdLost();
        var _ := CtlSend(i);
      }
      closing := false;
    }
  }
}
