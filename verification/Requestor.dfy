/** requestor.c: the download side as an object updated in place. */
module Request {
  import opened Common
  import opened RequestorSpec
  import opened RequestorProofs
  import RequestorLaws
  import Sha1
  import Sha1Spec

  /** What requestor_packet tells apart; an IHAVE packet carries a list of hashes. */
  datatype Inbound = IHave(hashes: seq<string>) | DataPacket(seqNum: nat, payload: seq<byte>) | Denied

  function EventsOf(peer: nat, packet: Inbound): seq<Event> {
    match packet
    case IHave(hashes) => seq(|hashes|, i requires 0 <= i < |hashes| => IHaveEvent(peer, hashes[i]))
    case DataPacket(n, payload) => [DataEvent(peer, n, payload)]
    case Denied => []
  }

  class BtRequestor {
    var inProgress: bool
    const downloading: array<int>
    var chunks: array<Chunk>
    var left: int

    /** The bytes written to the output file, and the messages sent. */
    ghost var output: map<nat, byte>
    ghost var log: seq<Message>

    ghost function State(): Requestor
      reads this, downloading, chunks
    {
      Requestor(inProgress, downloading[..], chunks[..], left, output, log)
    }

    ghost predicate Valid()
      reads this, downloading, chunks
    {
      Shaped(State())
    }

    constructor ()
      ensures fresh(downloading) && fresh(chunks) && downloading.Length == MAX_PEERS
      ensures !inProgress
    {
      inProgress := false;
      downloading := new int[MAX_PEERS](_ => -1);
      chunks := new Chunk[0];
      left := 0;
      output, log := map[], [];
    }

    ghost method Say(m: Message)
      modifies this`log
      ensures log == old(log) + [m]
    {
      log := log + [m];
    }

    /** init_requestor, on the hashes read from the chunk file and the memory malloc returned. */
    method InitRequestor(hashes: seq<string>, memory: array<Chunk>)
      requires memory.Length == |hashes| && downloading.Length == MAX_PEERS
      requires forall i :: 0 <= i < memory.Length ==> |memory[i].dataBuf| == CHUNK_SIZE
      modifies this, downloading, memory
      ensures chunks == memory
      ensures State() == RequestorSpec.InitRequestor(hashes, old(memory[..])) && Valid()
    {
      hide InitChunk, Shaped;
      output, log := map[], [];
      chunks := memory;
      for i := 0 to |hashes|
        invariant chunks == memory && |log| == i
        invariant forall k :: 0 <= k < i ==> log[k] == WhoHas(k)
        invariant forall k :: 0 <= k < i ==> memory[k] == InitChunk(old(memory[k]), hashes[k])
        invariant forall k :: i <= k < |hashes| ==> memory[k] == old(memory[k])
        invariant output == map[]
      {
        ResetChunk(chunks, i, hashes[i]);
        Say(WhoHas(i));
      }
      left := |hashes|;
      inProgress := true;
      forall p | 0 <= p < downloading.Length {
        downloading[p] := -1;
      }
      InitShaped(hashes, old(memory[..]));
    }

    /** One turn of the loop of init_requestor. */
    static method ResetChunk(chunks: array<Chunk>, i: nat, hash: string)
      requires i < chunks.Length
      modifies chunks
      ensures chunks[..] == old(chunks[..])[i := InitChunk(old(chunks[i]), hash)]
    {
      chunks[i] := chunks[i].(hash := hash);
      chunks[i] := chunks[i].(recved := NoneReceived());
      chunks[i] := chunks[i].(providers := []);
      chunks[i] := chunks[i].(left := BUFFER_LEN);
      chunks[i] := chunks[i].(curProvider := -1);
      chunks[i] := chunks[i].(finished := false);
    }

    method FindNextProvider(chunk: nat) returns (provider: int)
      requires Valid() && chunk < chunks.Length
      modifies chunks
      ensures var c := old(chunks[chunk]);
        if c.providers == [] then provider == -1 && State() == old(State())
        else match Pick(c, downloading[..])
          case None => provider == -2 && State() == old(State())
          case Some(k) =>
            && provider == c.providers[k]
            && State() == old(State()).(chunks := old(chunks[..])[chunk := c.(lastProvider := k)])
    {
      var i := chunks[chunk].lastProvider;
      var n := |chunks[chunk].providers|;
      if n == 0 {
        return -1;
      }
      ghost var c := chunks[chunk];
      var wait := false;
      var j := 0;
      i := Following(i, n);
      while j < n
        invariant 0 <= j <= n && 0 <= i < n && (wait <==> j > 0)
        invariant State() == old(State())
        invariant Pick(c, downloading[..]) == NextFree(c, downloading[..], i, j)
      {
        var p := chunks[chunk].providers[i];
        if downloading[p] == -1 {
          chunks[chunk] := chunks[chunk].(lastProvider := i);
          return p;
        } else {
          wait := true;
        }
        j, i := j + 1, Following(i, n);
      }
      if wait {
        return -2;
      }
      provider := -1;
    }

    method SendGet(provider: nat, chunk: nat) returns (ret: int)
      requires Valid() && provider < MAX_PEERS && chunk < chunks.Length
      modifies this`log, downloading, chunks
      ensures State() == RequestorSpec.SendGet(old(State()), provider, chunk)
      ensures ret == if old(downloading[provider]) != -1 then -1 else 0
    {
      if downloading[provider] != -1 {
        return -1;
      }
      downloading[provider] := chunk;
      chunks[chunk] := chunks[chunk].(curProvider := provider);
      chunks[chunk] := chunks[chunk].(left := BUFFER_LEN);
      chunks[chunk] := chunks[chunk].(lastPacket := BT_DATA_TIMEOUT);
      chunks[chunk] := chunks[chunk].(recved := NoneReceived());
      chunks[chunk] := chunks[chunk].(curAck := 0);
      Say(Get(provider, chunk));
      ret := 0;
    }

    method RequestNextChunk() returns (ret: int)
      requires Valid()
      modifies this`log, downloading, chunks
      ensures (State(), ret) == RequestNext(old(State()), 0)
    {
      hide RequestorSpec.SendGet, Pick;
      ghost var r := State();
      var i := 0;
      while i < chunks.Length
        invariant 0 <= i <= chunks.Length
        invariant State() == r
        invariant RequestNext(r, 0) == RequestNext(r, i)
      {
        if !chunks[i].finished && chunks[i].curProvider == -1 {
          var newProvider := FindNextProvider(i);
          if newProvider >= 0 {
            var _ := SendGet(newProvider, i);
            return 1;
          } else if newProvider == -1 {
            Say(WhoHas(i));
            return -1;
          }
        }
        i := i + 1;
      }
      ret := 0;
    }

    method RequstorTimeout()
      requires Valid()
      modifies this`log, downloading, chunks
      ensures State() == Tick(old(State()))
    {
      hide RequestNext;
      if !inProgress {
        return;
      }
      ghost var r := State();
      var i := 0;
      while i < chunks.Length
        invariant 0 <= i <= chunks.Length && Valid()
        invariant inProgress && Expire(State(), i) == Expire(r, 0)
      {
        ExpireChunk(i);
        i := i + 1;
      }

      ghost var e := State();
      RequestNextAssigns(State(), 0);
      var ret := RequestNextChunk();
      while ret == 1
        invariant Valid()
        invariant RetryAll(e) == if ret == 1 then RetryAll(State()) else State()
        decreases ret == 1, WaitingCount(chunks[..], 0)
      {
        RequestNextAssigns(State(), 0);
        ret := RequestNextChunk();
      }
    }

    /** The body of the countdown loop. */
    method ExpireChunk(i: nat)
      requires Valid() && i < chunks.Length
      modifies downloading, chunks
      ensures State() == ExpireOne(old(State()), i) && Valid()
    {
      if !chunks[i].finished && chunks[i].curProvider != -1 {
        if chunks[i].lastPacket > 0 {
          chunks[i] := chunks[i].(lastPacket := chunks[i].lastPacket - 1);
          if chunks[i].lastPacket == 0 {
            downloading[chunks[i].curProvider] := -1;
            chunks[i] := chunks[i].(curProvider := -1);
          }
        }
      }
    }

    method AddProvider(hash: string, peer: nat)
      requires Valid() && peer < MAX_PEERS
      modifies this`log, downloading, chunks
      ensures State() == RequestorSpec.AddProvider(old(State()), hash, peer)
    {
      hide RequestNext;
      ghost var r := State();
      var i := 0;
      while i < chunks.Length
        invariant 0 <= i <= chunks.Length && Valid()
        invariant AddTo(State(), hash, peer, i) == AddTo(r, hash, peer, 0)
      {
        AddToChunk(i, hash, peer);
        i := i + 1;
      }
      var _ := RequestNextChunk();
    }

    /** The body of the loop of add_provider: a peer is listed once for each chunk with that hash. */
    method AddToChunk(i: nat, hash: string, peer: nat)
      requires Valid() && i < chunks.Length && peer < MAX_PEERS
      modifies chunks
      ensures Valid()
      ensures State() == old(State()).(chunks :=
        if SameHash(old(chunks[i].hash), hash) && peer !in old(chunks[i].providers)
        then old(chunks[..])[i := old(chunks[i]).(providers := old(chunks[i].providers) + [peer])]
        else old(chunks[..]))
    {
      if SameHash(chunks[i].hash, hash) {
        var j := 0;
        while j < |chunks[i].providers|
          invariant 0 <= j <= |chunks[i].providers|
          invariant peer !in chunks[i].providers[..j]
        {
          if chunks[i].providers[j] == peer {
            return;
          }
          j := j + 1;
        }
        assert chunks[i].providers[..|chunks[i].providers|] == chunks[i].providers;
        chunks[i] := chunks[i].(providers := chunks[i].providers + [peer]);
      }
    }

    method FinishChunk(chunk: nat)
      requires Valid() && chunk < chunks.Length && chunks[chunk].curProvider >= 0
      modifies this, downloading, chunks
      ensures chunks == old(chunks)
      ensures var ascii := Hex(Sha1Spec.Digest(old(chunks[chunk].dataBuf)));
        State() == RequestorSpec.FinishChunk(old(State()), chunk, ascii)
    {
      hide RequestNext, Sha1Spec.Digest, RequestorSpec.Reject, RequestorSpec.Accept;
      var hash := Sha1.ShaHash(chunks[chunk].dataBuf);
      var ascii := Hex(hash);
      if !SameHash(ascii, chunks[chunk].hash) {
        Reject(chunk);
        var _ := RequestNextChunk();
        return;
      }
      Accept(chunk);
      if left == 0 {
        inProgress := false;
      } else {
        var _ := RequestNextChunk();
      }
    }

    method Reject(chunk: nat)
      requires Valid() && chunk < chunks.Length && chunks[chunk].curProvider >= 0
      modifies downloading, chunks
      ensures State() == RequestorSpec.Reject(old(State()), chunk)
    {
      var provider := chunks[chunk].curProvider;
      downloading[provider] := -1;
      chunks[chunk] := chunks[chunk].(recved := NoneReceived());
      chunks[chunk] := chunks[chunk].(left := BUFFER_LEN);
      chunks[chunk] := chunks[chunk].(curProvider := -1);
      chunks[chunk] := chunks[chunk].(finished := false);
    }

    method Accept(chunk: nat)
      requires Valid() && chunk < chunks.Length && chunks[chunk].curProvider >= 0
      modifies this`left, this`output, downloading, chunks
      ensures State() == RequestorSpec.Accept(old(State()), chunk)
    {
      var provider := chunks[chunk].curProvider;
      downloading[provider] := -1;
      output := Write(output, chunk * CHUNK_SIZE, chunks[chunk].dataBuf);
      chunks[chunk] := chunks[chunk].(finished := true);
      chunks[chunk] := chunks[chunk].(curProvider := -1);
      chunks[chunk] := chunks[chunk].(lastPacket := 0);
      chunks[chunk] := chunks[chunk].(finished := true);
      left := left - 1;
    }

    method UpdateData(peer: nat, seqNum: nat, payload: seq<byte>)
      requires Valid() && peer < MAX_PEERS && |payload| == PACKET_SIZE
      requires downloading[peer] == -1 || seqNum < BUFFER_LEN
      requires downloading[peer] != -1 ==>
        var c := chunks[downloading[peer]]; 0 <= c.curAck <= BUFFER_LEN && c.curProvider >= 0
      modifies this, downloading, chunks
      ensures chunks == old(chunks)
      ensures State() == RequestorSpec.UpdateData(old(State()), peer, seqNum, payload)
    {
      hide RequestorSpec.FinishChunk, Sha1Spec.Digest;
      var chunk := downloading[peer];
      if chunk == -1 {
        return;
      }
      if seqNum < chunks[chunk].curAck {
        return;
      }
      ReceivePacket(chunk, seqNum, payload);
      Say(Ack(peer, chunks[chunk].curAck));
      if chunks[chunk].left == 0 {
        FinishChunk(chunk);
      }
    }

    /** The middle of update_data: store the packet, and move the cumulative acknowledgment. */
    method ReceivePacket(chunk: nat, seqNum: nat, payload: seq<byte>)
      requires Valid() && chunk < chunks.Length && 0 <= chunks[chunk].curAck <= BUFFER_LEN
      requires seqNum < BUFFER_LEN && |payload| == PACKET_SIZE
      modifies chunks
      ensures State() == old(State()).(chunks := old(chunks[..])[chunk := Receive(old(chunks[chunk]), seqNum, payload)])
      ensures Valid()
    {
      hide RequestorSpec.Store;
      StorePacket(chunk, seqNum, payload);
      var recved := chunks[chunk].recved;
      ghost var first := chunks[chunk].curAck;
      var n := chunks[chunk].curAck;
      while n < BUFFER_LEN && recved[n]
        invariant first <= n <= BUFFER_LEN
        invariant FirstMissing(recved, n) == FirstMissing(recved, first)
      {
        n := n + 1;
      }
      chunks[chunk] := chunks[chunk].(curAck := n);
      assert ChunkShaped(Receive(old(chunks[chunk]), seqNum, payload));
    }

    method StorePacket(chunk: nat, seqNum: nat, payload: seq<byte>)
      requires Valid() && chunk < chunks.Length
      requires seqNum < BUFFER_LEN && |payload| == PACKET_SIZE
      modifies chunks
      ensures chunks[..] == old(chunks[..])[chunk := Store(old(chunks[chunk]), seqNum, payload)]
      ensures chunks[chunk].curAck == old(chunks[chunk].curAck)
      ensures chunks[chunk].curProvider == old(chunks[chunk].curProvider)
    {
      hide Splice;
      chunks[chunk] := chunks[chunk].(lastPacket := BT_DATA_TIMEOUT);
      var offset := seqNum * PACKET_SIZE;
      chunks[chunk] := chunks[chunk].(dataBuf := Splice(chunks[chunk].dataBuf, offset, payload));
      if !chunks[chunk].recved[seqNum] {
        chunks[chunk] := chunks[chunk].(recved := chunks[chunk].recved[seqNum := true]);
        chunks[chunk] := chunks[chunk].(left := chunks[chunk].left - 1);
      }
      assert chunks[chunk].recved == old(chunks[chunk].recved)[seqNum := true];
    }

    /**
     * requestor_packet: any packet from a peer is a run of events, so every invariant of runs holds of the object. An
     * IHAVE packet offers all its hashes, a DATA packet is data, and anything is ignored when the download is over.
     */
    method RequestorPacket(peer: nat, packet: Inbound)
      requires Inv(State()) && peer < MAX_PEERS && AllProper(EventsOf(peer, packet))
      modifies this, downloading, chunks
      ensures chunks == old(chunks)
      ensures Inv(State()) && State() == Run(old(State()), EventsOf(peer, packet))
      ensures !old(inProgress) || packet.Denied? ==> State() == old(State())
      ensures packet.IHave? && old(inProgress) ==>
        RequestorLaws.AllOffered(old(State()), packet.hashes, peer, State())
      ensures packet.DataPacket? && Proper(DataEvent(peer, packet.seqNum, packet.payload)) ==>
        State() == Step(old(State()), DataEvent(peer, packet.seqNum, packet.payload))
    {
      hide Inv, RequestorSpec.AddProvider, RequestorSpec.UpdateData, RequestorLaws.AllOffered;
      ghost var r := State();
      if !r.inProgress {
        IdleRun(r, EventsOf(peer, packet));
      } else if packet.IHave? {
        RequestorLaws.OffersLaw(r, EventsOf(peer, packet), packet.hashes, peer);
      }
      RunOfOne(r, EventsOf(peer, packet));
      match packet
      case IHave(hashes) =>
        AddProviders(peer, hashes);
      case DataPacket(seqNum, payload) =>
        if inProgress {
          UpdatePrecondition(r, peer);
          UpdateData(peer, seqNum, payload);
        }
      case Denied =>
    }

    method AddProviders(peer: nat, hashes: seq<string>)
      requires Inv(State()) && peer < MAX_PEERS
      modifies this`log, downloading, chunks
      ensures State() == Run(old(State()), EventsOf(peer, IHave(hashes)))
    {
      hide Inv, RequestorSpec.AddProvider;
      ghost var r := State();
      ghost var es := EventsOf(peer, IHave(hashes));
      if !inProgress {
        IdleRun(r, es);
        return;
      }
      var i := 0;
      while i < |hashes|
        invariant 0 <= i <= |hashes|
        invariant State() == Run(r, es[..i]) && inProgress
      {
        assert es[..i + 1] == es[..i] + [es[i]];
        RunAppend(r, es[..i], es[i]);
        AddProviderGoesOn(State(), hashes[i], peer);
        AddProvider(hashes[i], peer);
        i := i + 1;
      }
      assert es[..i] == es;
    }
  }
}
