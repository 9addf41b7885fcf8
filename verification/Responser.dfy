/** responser.c and the sender dispatch of peer.c: the upload side as an object over four senders. */
module Respond {
  import opened Common
  import opened SenderSpec
  import SenderProofs
  import SenderRuns
  import opened PoolSpec
  import opened Send
  import Transfer

  class BtResponser {
    const senders: seq<BtSender>
    const uploadingTo: array<bool>
    const maxConn: int
    var uploadingCnt: int
    var connCnt: int

    /** The payloads each sender was last filled with. */
    ghost var sources: seq<seq<seq<byte>>>

    ghost predicate Wired() {
      && |senders| == MAX_UPLOAD
      && uploadingTo.Length == MAX_PEERS
      && (forall i :: 0 <= i < MAX_UPLOAD ==> senders[i].pktBuf.Length == BUFFER_LEN)
      && (forall i, j :: 0 <= i < j < MAX_UPLOAD ==> senders[i] != senders[j] && senders[i].pktBuf != senders[j].pktBuf)
    }

    ghost function Buffers(): set<object> {
      set i | 0 <= i < |senders| :: senders[i].pktBuf
    }

    ghost function Clocks(): seq<Clock>
      requires Wired()
    {
      [senders[0].clock, senders[1].clock, senders[2].clock, senders[3].clock]
    }

    lemma ClocksAt(k: int)
      requires Wired()
      ensures |Clocks()| == MAX_UPLOAD
      ensures 0 <= k < MAX_UPLOAD ==> Clocks()[k] == senders[k].clock
    {}

    ghost function State(): Pool
      requires Wired()
      reads this, uploadingTo, senders, Buffers()
    {
      Pool([senders[0].State(), senders[1].State(), senders[2].State(), senders[3].State()],
           sources, uploadingTo[..], uploadingCnt, connCnt)
    }

    ghost predicate Valid()
      reads this, uploadingTo, senders, Buffers()
    {
      Wired() && PoolInv(State(), maxConn, Clocks())
    }

    /** init_responser, with the senders marked idle by peer_run. */
    constructor (senders: seq<BtSender>, maxConn: int)
      requires |senders| == MAX_UPLOAD
      requires forall i :: 0 <= i < MAX_UPLOAD ==>
        senders[i].isIdle && senders[i].pktBuf.Length == BUFFER_LEN && Steady(senders[i].clock)
      requires forall i, j :: 0 <= i < j < MAX_UPLOAD ==>
        senders[i] != senders[j] && senders[i].pktBuf != senders[j].pktBuf
      ensures Wired() && Initial(State(), Clocks()) && this.senders == senders && this.maxConn == maxConn
      ensures Valid()
    {
      this.senders := senders;
      this.maxConn := maxConn;
      uploadingTo := new bool[MAX_PEERS](_ => false);
      uploadingCnt, connCnt := 0, 0;
      sources := [[], [], [], []];
      new;
      InitialIsInv(State(), maxConn, Clocks());
    }

    method ConnectionClosed(peer: nat)
      requires Wired() && peer < MAX_PEERS
      modifies this`uploadingCnt, uploadingTo, senders
      ensures State() == PoolSpec.ConnectionClosed(old(State()), peer)
    {
      hide BtSender.State;
      if uploadingTo[peer] {
        uploadingTo[peer] := false;
        uploadingCnt := uploadingCnt - 1;
        ReleaseSender(peer);
      }
    }

    method ReleaseSender(peer: nat)
      requires Wired()
      modifies senders
      ensures State().senders == ReleaseFirst(old(State().senders), peer, 0)
    {
      hide BtSender.State;
      ghost var s := State().senders;
      var i := 0;
      while i < MAX_UPLOAD
        invariant 0 <= i <= MAX_UPLOAD
        invariant State().senders == s
        invariant ReleaseFirst(s, peer, i) == ReleaseFirst(s, peer, 0)
      {
        assert s[i] == senders[i].State();
        StateShows(senders[i]);
        if !senders[i].isIdle && senders[i].peer == peer {
          MakeIdle(senders[i]);
          assert State().senders == s[i := s[i].(isIdle := true)];
          break;
        }
        i := i + 1;
      }
    }

    static method MakeIdle(sender: BtSender)
      modifies sender`isIdle
      ensures sender.State() == old(sender.State()).(isIdle := true)
    {
      sender.isIdle := true;
    }

    /** One busy sender takes an ACK; a connection that asks for it is closed. */
    method AckOne(i: nat, ackNum: u32)
      requires Valid() && i < MAX_UPLOAD && !State().senders[i].isIdle
      modifies this`uploadingCnt, uploadingTo, senders, Buffers()
      ensures Wired() && State() == PoolSpec.AckOne(old(State()), ackNum, i, maxConn, Clocks())
    {
      hide PoolInv, PoolSpec.ConnectionClosed, SenderSpec.CtlUdpAck, BtSender.State;
      ghost var p := State();
      assert p.senders[i] == senders[i].State() && Clocks()[i] == senders[i].clock;
      BusyPeer(p, i, maxConn, Clocks());
      AckKeepsPeer(p.senders[i], ackNum, Clocks()[i]);
      var closing := senders[i].CtlUdpAck(ackNum);
      StateShows(senders[i]);
      assert State() == p.(senders := p.senders[i := senders[i].State()]);
      if closing {
        ConnectionClosed(senders[i].peer);
      }
    }

    /** One busy sender looks for an overdue packet; a connection that asks for it is closed. */
    method TickOne(i: nat)
      requires Valid() && i < MAX_UPLOAD && !State().senders[i].isIdle
      modifies this`uploadingCnt, uploadingTo, senders, Buffers()
      ensures Wired() && State() == PoolSpec.TickOne(old(State()), i, maxConn, Clocks())
    {
      hide PoolInv, PoolSpec.ConnectionClosed, SenderSpec.CtlUdpTimeOut, BtSender.State;
      ghost var p := State();
      assert p.senders[i] == senders[i].State() && Clocks()[i] == senders[i].clock;
      BusyPeer(p, i, maxConn, Clocks());
      TimeOutKeepsPeer(p.senders[i], Clocks()[i]);
      StateShows(senders[i]);
      var closing := senders[i].CtlUdpTimeOut();
      StateShows(senders[i]);
      assert State() == p.(senders := p.senders[i := senders[i].State()]);
      if closing {
        ConnectionClosed(senders[i].peer);
      }
    }

    /** The ACK branch of process_inbound_udp. */
    method HandleAck(peer: nat, ackNum: u32)
      requires Valid()
      modifies this`uploadingCnt, uploadingTo, senders, Buffers()
      ensures Valid() && State() == AckFrom(old(State()), peer, ackNum, 0, maxConn, Clocks())
      ensures Handled(old(State())) && Acked(old(State()), peer, ackNum, Clocks(), State())
    {
      hide PoolInv, PoolSpec.AckOne, BtSender.State, Acked;
      ghost var p := State();
      AckReaches(p, peer, ackNum, 0, maxConn, Clocks());
      var i := 0;
      while i < MAX_UPLOAD
        invariant 0 <= i <= MAX_UPLOAD && Valid()
        invariant AckFrom(State(), peer, ackNum, i, maxConn, Clocks()) == AckFrom(p, peer, ackNum, 0, maxConn, Clocks())
      {
        assert State().senders[i] == senders[i].State();
        StateShows(senders[i]);
        if !senders[i].isIdle && senders[i].peer == peer {
          AckOne(i, ackNum);
        }
        i := i + 1;
      }
    }

    /** The sender part of the tick in peer_run. */
    method HandleTick()
      requires Valid()
      modifies this`uploadingCnt, uploadingTo, senders, Buffers()
      ensures Valid() && State() == TickFrom(old(State()), 0, maxConn, Clocks())
      ensures Handled(old(State())) && Ticked(old(State()), Clocks(), 0, State())
    {
      hide PoolInv, PoolSpec.TickOne, BtSender.State, Ticked;
      ghost var p := State();
      TickReaches(p, 0, maxConn, Clocks());
      var i := 0;
      while i < MAX_UPLOAD
        invariant 0 <= i <= MAX_UPLOAD && Valid()
        invariant TickFrom(State(), i, maxConn, Clocks()) == TickFrom(p, 0, maxConn, Clocks())
      {
        assert State().senders[i] == senders[i].State();
        StateShows(senders[i]);
        if !senders[i].isIdle {
          TickOne(i);
        }
        i := i + 1;
      }
    }

    method FindSender() returns (ret: int)
      requires Wired()
      modifies this`connCnt, senders, Buffers()
      ensures match FirstIdle(old(State()).senders, 0)
        case None => ret == -1 && State() == old(State())
        case Some(k) =>
          && ret == k
          && var p := old(State());
             State() == p.(connCnt := p.connCnt + 1,
                           senders := p.senders[k := InitSender(p.senders[k], p.connCnt + 1, Clocks()[k])])
    {
      hide SenderSpec.InitSender, BtSender.State;
      ghost var p := State();
      var i := 0;
      while i < MAX_UPLOAD
        invariant 0 <= i <= MAX_UPLOAD
        invariant State() == p
        invariant FirstIdle(p.senders, i) == FirstIdle(p.senders, 0)
      {
        assert p.senders[i] == senders[i].State();
        StateShows(senders[i]);
        if senders[i].isIdle {
          Connect(i);
          return i;
        }
        i := i + 1;
      }
      ret := -1;
    }

    /** The part of find_sender for the idle sender found. */
    method Connect(k: nat)
      requires Wired() && k < MAX_UPLOAD
      modifies this`connCnt, senders[k], senders[k].pktBuf
      ensures var p := old(State()); State() == p.(connCnt := p.connCnt + 1,
        senders := p.senders[k := InitSender(p.senders[k], p.connCnt + 1, Clocks()[k])])
    {
      hide SenderSpec.InitSender, BtSender.State;
      ghost var p := State();
      assert p.senders[k] == senders[k].State() && Clocks()[k] == senders[k].clock;
      connCnt := connCnt + 1;
      senders[k].InitSender(connCnt);
      assert State().senders == p.senders[k := senders[k].State()];
    }

    /** The loop of send_chunk: the chunk file's contents, one packet after the other. */
    static method Fill(sender: BtSender, chunk: seq<byte>)
      requires |chunk| == CHUNK_SIZE && Steady(sender.clock) && sender.pktBuf.Length == BUFFER_LEN
      requires SenderProofs.Sane(sender.State(), Transfer.Blocks(chunk), sender.clock) && sender.tail == 0
      modifies sender, sender.pktBuf
      ensures sender.State()
           == SenderRuns.FillFrom(old(sender.State()), Transfer.Blocks(chunk), sender.clock)
    {
      hide SenderProofs.Sane, SenderSpec.CtlUdpSend, SenderRuns.FillFrom;
      ghost var src, clk := Transfer.Blocks(chunk), sender.clock;
      var i := 0;
      while i < CHUNK_SIZE
        invariant 0 <= i <= CHUNK_SIZE && i == sender.tail * PACKET_SIZE
        invariant SenderProofs.Sane(sender.State(), src, clk)
        invariant SenderRuns.FillFrom(sender.State(), src, clk) == SenderRuns.FillFrom(old(sender.State()), src, clk)
      {
        var buf := chunk[i..i + PACKET_SIZE];
        assert buf == src[sender.tail];
        FillStep(sender.State(), src, clk);
        var _ := sender.CtlUdpSend(Some(Data(i / PACKET_SIZE, buf)));
        i := i + PACKET_SIZE;
      }
      FillStep(sender.State(), src, clk);
    }

    method SendChunk(peer: nat, chunk: seq<byte>) returns (ret: int)
      requires Valid() && peer < MAX_PEERS && |chunk| == CHUNK_SIZE
      modifies this, uploadingTo, senders, Buffers()
      ensures Valid() && (State(), ret) == PoolSpec.SendChunk(old(State()), peer, chunk, maxConn, Clocks())
      ensures ret == 0 <==> !old(uploadingTo[peer]) && old(uploadingCnt) < maxConn && old(uploadingCnt) < 4
      ensures if ret == 0 then Taken(old(State()), peer, chunk, State()) else ret == -1 && State() == old(State())
    {
      hide SenderSpec.InitSender, PoolInv, Filled, Taken, Transfer.Blocks;
      ghost var p := State();
      InvShaped(p, maxConn, Clocks());
      SendChunkKeeps(p, peer, chunk, maxConn, Clocks());
      GetLaw(p, peer, chunk, maxConn, Clocks());
      if uploadingTo[peer] {
        return -1;
      }
      if uploadingCnt >= maxConn {
        return -1;
      }
      ret := TakeSender(peer, chunk);
    }

    /** send_chunk past its two checks. */
    method TakeSender(peer: nat, chunk: seq<byte>) returns (ret: int)
      requires Wired() && PoolShaped(State(), Clocks()) && peer < MAX_PEERS && |chunk| == CHUNK_SIZE
      modifies this, uploadingTo, senders, Buffers()
      ensures (State(), ret) == Take(old(State()), peer, chunk, Clocks())
    {
      hide State, Clocks, Take, SenderSpec.InitSender, Filled, FirstIdle, Transfer.Blocks, BtSender.State;
      ghost var p := State();
      var k := FindSender();
      ClocksAt(k);
      if k == -1 {
        TakeNone(p, peer, chunk, Clocks());
        return -1;
      }
      ghost var q := State();
      Occupy(k, p.senders[k], peer, p.connCnt + 1, chunk);
      TakeDone(p, q, State(), k, peer, chunk, Clocks());
      ret := 0;
    }

    /** The rest of send_chunk, with sender k just initialised for connection `id`. */
    method Occupy(k: nat, ghost before: Sender, peer: nat, ghost id: int, chunk: seq<byte>)
      requires Wired() && |State().sources| == MAX_UPLOAD && k < MAX_UPLOAD && peer < MAX_PEERS && |chunk| == CHUNK_SIZE
      requires Steady(senders[k].clock) && State().senders[k] == InitSender(before, id, senders[k].clock)
      modifies this`uploadingCnt, this`sources, uploadingTo, senders[k], senders[k].pktBuf
      ensures var q, src := old(State()), Transfer.Blocks(chunk);
        State() == q.(senders := q.senders[k := Filled(before.(peer := peer), id, src, senders[k].clock)],
                      sources := q.sources[k := src], uploadingTo := q.uploadingTo[peer := true], cnt := q.cnt + 1)
    {
      hide SenderSpec.InitSender, Filled, BtSender.State, Transfer.Blocks;
      ghost var q := State();
      assert q.senders[k] == senders[k].State();
      uploadingTo[peer] := true;
      uploadingCnt := uploadingCnt + 1;
      StartSender(senders[k], before, peer, id, chunk);
      sources := sources[k := Transfer.Blocks(chunk)];
      assert State().senders == q.senders[k := senders[k].State()];
    }

    /** The sender found idle, then initialised as connection `id`, is pointed at the peer and filled. */
    static method StartSender(sender: BtSender, ghost before: Sender, peer: nat, ghost id: int, chunk: seq<byte>)
      requires |chunk| == CHUNK_SIZE && Steady(sender.clock) && sender.pktBuf.Length == BUFFER_LEN
      requires sender.State() == InitSender(before, id, sender.clock)
      modifies sender, sender.pktBuf
      ensures sender.State() == Filled(before.(peer := peer), id, Transfer.Blocks(chunk), sender.clock)
    {
      hide SenderProofs.Sane, SenderRuns.FillFrom;
      sender.peer := peer;
      SenderProofs.InitIsSane(before.(peer := peer), id, Transfer.Blocks(chunk), sender.clock);
      InitKeepsPeer(before, peer, id, sender.clock);
      assert sender.State() == InitSender(before.(peer := peer), id, sender.clock);
      Fill(sender, chunk);
    }
  }

  lemma TakeNone(p: Pool, peer: nat, chunk: seq<byte>, clks: seq<Clock>)
    requires PoolShaped(p, clks) && peer < MAX_PEERS && |chunk| == CHUNK_SIZE && FirstIdle(p.senders, 0).None?
    ensures Take(p, peer, chunk, clks) == (p, -1)
  {}

  lemma TakeDone(p: Pool, q: Pool, r: Pool, k: nat, peer: nat, chunk: seq<byte>, clks: seq<Clock>)
    requires PoolShaped(p, clks) && peer < MAX_PEERS && |chunk| == CHUNK_SIZE && FirstIdle(p.senders, 0) == Some(k)
    requires k < |q.senders| && q == p.(connCnt := p.connCnt + 1, senders := p.senders[k := q.senders[k]])
    requires var src := Transfer.Blocks(chunk);
      r == q.(senders := q.senders[k := Filled(p.senders[k].(peer := peer), p.connCnt + 1, src, clks[k])],
              sources := q.sources[k := src], uploadingTo := q.uploadingTo[peer := true], cnt := q.cnt + 1)
    ensures (r, 0) == Take(p, peer, chunk, clks)
  {
    hide Filled, Transfer.Blocks;
    assert r.senders == p.senders[k := r.senders[k]];
  }

  lemma StateShows(sender: BtSender)
    ensures var s := sender.State(); s.isIdle == sender.isIdle && s.peer == sender.peer && s.head == sender.head
  {}

  lemma FillStep(s: Sender, src: seq<seq<byte>>, clk: Clock)
    requires Steady(clk) && SenderProofs.Sane(s, src, clk)
    ensures s.tail <= |s.buf| == |src| == BUFFER_LEN
    ensures s.tail == BUFFER_LEN ==> SenderRuns.FillFrom(s, src, clk) == s
    ensures s.tail < BUFFER_LEN ==>
      var t := SenderSpec.CtlUdpSend(s, Data(s.tail, src[s.tail]), clk);
      && SenderProofs.Sane(t, src, clk) && t.tail == s.tail + 1
      && SenderRuns.FillFrom(s, src, clk) == SenderRuns.FillFrom(t, src, clk)
  {
    if s.tail < BUFFER_LEN {
      SenderProofs.CtlUdpSendKeepsSane(s, src, clk);
    }
  }

  lemma InitKeepsPeer(s: Sender, peer: int, id: int, clk: Clock)
    ensures InitSender(s.(peer := peer), id, clk) == InitSender(s, id, clk).(peer := peer)
  {}
}
