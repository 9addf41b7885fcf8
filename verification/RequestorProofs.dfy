/** What every reachable state of a download satisfies, whatever packets arrive. */
module RequestorProofs {
  import opened Common
  import opened RequestorSpec
  import Sha1Spec

  // The receiver's counters

  /** How many packets from i on are missing. */
  function Missing(recved: seq<bool>, i: nat): nat
    decreases |recved| - i
  {
    if i >= |recved| then 0 else (if recved[i] then 0 else 1) + Missing(recved, i + 1)
  }

  /** `left` counts the missing packets, and `curAck` is the first of them. */
  ghost predicate Counted(c: Chunk) {
    && |c.recved| == BUFFER_LEN
    && c.left == Missing(c.recved, 0)
    && c.curAck == FirstMissing(c.recved, 0)
  }

  lemma {:induction false} MissingAfterReceipt(s: seq<bool>, n: nat, i: nat)
    requires n < |s|
    ensures Missing(s[n := true], i) == Missing(s, i) - if i <= n && !s[n] then 1 else 0
    decreases |s| - i
  {
    if i < |s| {
      MissingAfterReceipt(s, n, i + 1);
    }
  }

  lemma {:induction false} FirstMissingSkips(s: seq<bool>, i: nat, j: nat)
    requires i <= j <= |s|
    requires forall k :: i <= k < j ==> s[k]
    ensures FirstMissing(s, i) == FirstMissing(s, j)
    decreases j - i
  {
    if i < j {
      FirstMissingSkips(s, i + 1, j);
    }
  }

  lemma {:induction false} NoneMissing(s: seq<bool>, i: nat)
    requires i <= |s|
    ensures Missing(s, i) == 0 <==> FirstMissing(s, i) == |s|
    decreases |s| - i
  {
    if i < |s| {
      NoneMissing(s, i + 1);
    }
  }

  lemma {:induction false} AllMissing(s: seq<bool>, i: nat)
    requires i <= |s|
    requires forall k :: i <= k < |s| ==> !s[k]
    ensures Missing(s, i) == |s| - i && FirstMissing(s, i) == i
    decreases |s| - i
  {
    if i < |s| {
      AllMissing(s, i + 1);
    }
  }

  /**
   * A packet, in whatever order it comes, keeps the counters equal to what the bitmap says; the acknowledgment
   * sent back never falls, and nothing is left exactly when it covers the whole chunk.
   */
  lemma ReceiveKeepsCounted(c: Chunk, n: nat, payload: seq<byte>)
    requires ChunkShaped(c) && Counted(c) && n < BUFFER_LEN && |payload| == PACKET_SIZE
    ensures var d := Receive(c, n, payload);
      && Counted(d) && c.curAck <= d.curAck
      && (d.left == 0 <==> d.curAck == BUFFER_LEN)
      && d.recved == c.recved[n := true]
  {
    var s := c.recved[n := true];
    MissingAfterReceipt(c.recved, n, 0);
    FirstMissingSkips(s, 0, c.curAck);
    NoneMissing(s, 0);
  }

  // The two indexes, the finished chunks and the output file

  /** `downloading` and `curProvider` are inverse partial maps, and a chunk being served is unfinished and alive. */
  ghost predicate Inverse(r: Requestor)
    requires Shaped(r)
  {
    && (forall p :: 0 <= p < MAX_PEERS && r.downloading[p] != -1 ==> r.chunks[r.downloading[p]].curProvider == p)
    && (forall i :: 0 <= i < |r.chunks| && r.chunks[i].curProvider != -1 ==>
         && r.downloading[r.chunks[i].curProvider] == i
         && !r.chunks[i].finished
         && 1 <= r.chunks[i].lastPacket <= BT_DATA_TIMEOUT
         && Counted(r.chunks[i]) && r.chunks[i].left > 0)
  }

  function Unfinished(chunks: seq<Chunk>, i: nat): nat
    decreases |chunks| - i
  {
    if i >= |chunks| then 0 else (if chunks[i].finished then 0 else 1) + Unfinished(chunks, i + 1)
  }

  /** Byte k of the file belongs to the region of chunk i. */
  predicate Within(i: nat, k: nat) {
    InSpan(i * CHUNK_SIZE, CHUNK_SIZE, k)
  }

  /** All of region i has been written. */
  ghost predicate Present(file: map<nat, byte>, i: nat) {
    forall k: nat :: Within(i, k) ==> k in file
  }

  /** Nothing of region i has been written. */
  ghost predicate Absent(file: map<nat, byte>, i: nat) {
    forall k: nat :: Within(i, k) ==> k !in file
  }

  ghost function Region(file: map<nat, byte>, i: nat): (s: seq<byte>)
    requires Present(file, i)
    ensures |s| == CHUNK_SIZE
  {
    seq(CHUNK_SIZE, j requires 0 <= j < CHUNK_SIZE => assert Within(i, i * CHUNK_SIZE + j); file[i * CHUNK_SIZE + j])
  }

  /** The region of chunk i is in the file and has the digest asked for. */
  ghost predicate Delivered(file: map<nat, byte>, i: nat, hash: string) {
    Present(file, i) && Matches(Region(file, i), hash)
  }

  /** Exactly the finished chunks are in the output file, each with contents of the requested digest. */
  ghost predicate Written(r: Requestor) {
    forall i :: 0 <= i < |r.chunks| ==>
      if r.chunks[i].finished then Delivered(r.output, i, r.chunks[i].hash) else Absent(r.output, i)
  }

  /** No byte once written is ever changed. */
  ghost predicate Keeps(file: map<nat, byte>, later: map<nat, byte>) {
    forall k: nat :: k in file ==> k in later && later[k] == file[k]
  }

  lemma RegionsApart(i: nat, j: nat, k: nat)
    requires Within(i, k) && Within(j, k)
    ensures i == j
  {}

  /** Writing a region puts the data there and touches no other region. */
  lemma WriteRegion(file: map<nat, byte>, i: nat, data: seq<byte>, j: nat)
    requires |data| == CHUNK_SIZE
    ensures var later := Write(file, i * CHUNK_SIZE, data);
      && (j == i ==> Present(later, j) && Region(later, j) == data)
      && (j != i && Absent(file, j) ==> Absent(later, j))
      && (j != i && Present(file, j) ==> Present(later, j) && Region(later, j) == Region(file, j))
  {
    var later := Write(file, i * CHUNK_SIZE, data);
    forall k: nat | Within(j, k) && j != i ensures (k in later <==> k in file) && (k in file ==> later[k] == file[k]) {
      if Within(i, k) {
        RegionsApart(i, j, k);
      }
    }
    if j != i && Present(file, j) {
      SameRegion(file, later, j);
    }
  }

  lemma SameRegion(file: map<nat, byte>, later: map<nat, byte>, j: nat)
    requires Present(file, j) && forall k: nat :: Within(j, k) ==> k in later && later[k] == file[k]
    ensures Present(later, j) && Region(later, j) == Region(file, j)
  {
    assert Present(later, j);
    forall n | 0 <= n < CHUNK_SIZE ensures Region(later, j)[n] == Region(file, j)[n] {
      assert Within(j, j * CHUNK_SIZE + n);
    }
  }

  /** Writing a region of which nothing was there changes no byte that was. */
  lemma WriteKeeps(file: map<nat, byte>, i: nat, data: seq<byte>)
    requires |data| == CHUNK_SIZE && Absent(file, i)
    ensures Keeps(file, Write(file, i * CHUNK_SIZE, data))
  {
    forall k: nat | k in file ensures !Within(i, k) {}
  }

  ghost predicate Matches(region: seq<byte>, hash: string) {
    SameHash(Hex(Sha1Spec.Digest(region)), hash)
  }

  ghost predicate Distinct(s: seq<nat>) {
    forall i, j :: 0 <= i < j < |s| ==> s[i] != s[j]
  }

  ghost predicate Inv(r: Requestor) {
    && Shaped(r) && Inverse(r) && Written(r)
    && r.left == Unfinished(r.chunks, 0)
    && (forall i :: 0 <= i < |r.chunks| ==> Distinct(r.chunks[i].providers))
    && (r.chunks != [] ==> (r.inProgress <==> r.left > 0))
  }

  lemma {:induction false} UnfinishedSame(b: seq<Chunk>, c: seq<Chunk>, i: nat)
    requires |b| == |c| && forall k :: 0 <= k < |b| ==> c[k].finished == b[k].finished
    ensures Unfinished(c, i) == Unfinished(b, i)
    decreases |b| - i
  {
    if i < |b| {
      UnfinishedSame(b, c, i + 1);
    }
  }

  lemma {:induction false} UnfinishedDrops(b: seq<Chunk>, c: seq<Chunk>, i: nat, k: nat)
    requires |b| == |c| && k < |b|
    requires forall j :: 0 <= j < |b| && j != k ==> c[j].finished == b[j].finished
    requires !b[k].finished && c[k].finished
    ensures Unfinished(c, i) == Unfinished(b, i) - if i <= k then 1 else 0
    decreases |b| - i
  {
    if i < |b| {
      UnfinishedDrops(b, c, i + 1, k);
    }
  }

  lemma {:induction false} AllFinished(s: seq<Chunk>, i: nat)
    ensures Unfinished(s, i) == 0 <==> forall k :: i <= k < |s| ==> s[k].finished
    decreases |s| - i
  {
    if i < |s| {
      AllFinished(s, i + 1);
    }
  }

  /** What no step ever takes back: hashes stay, finished chunks stay finished, written bytes stay as written. */
  ghost predicate Monotone(r: Requestor, t: Requestor) {
    && |t.chunks| == |r.chunks|
    && (forall i :: 0 <= i < |r.chunks| ==> t.chunks[i].hash == r.chunks[i].hash)
    && (forall i :: 0 <= i < |r.chunks| && r.chunks[i].finished ==> t.chunks[i].finished)
    && Keeps(r.output, t.output)
  }

  lemma MonotoneSame(r: Requestor)
    ensures Monotone(r, r)
  {}

  lemma MonotoneJoins(r: Requestor, s: Requestor, t: Requestor)
    requires Monotone(r, s) && Monotone(s, t)
    ensures Monotone(r, t)
  {}

  // Each step keeps the invariant

  lemma InitKeeps(hashes: seq<string>, memory: seq<Chunk>)
    requires |memory| == |hashes|
    requires forall i :: 0 <= i < |memory| ==> |memory[i].dataBuf| == CHUNK_SIZE
    ensures Inv(InitRequestor(hashes, memory))
  {
    NobodyFinished(InitRequestor(hashes, memory).chunks, 0);
  }

  lemma {:induction false} NobodyFinished(s: seq<Chunk>, i: nat)
    requires i <= |s| && forall k :: 0 <= k < |s| ==> !s[k].finished
    ensures Unfinished(s, i) == |s| - i
    decreases |s| - i
  {
    if i < |s| {
      NobodyFinished(s, i + 1);
    }
  }

  lemma AssignKeeps(r: Requestor, i: nat, k: nat)
    requires Inv(r) && i < |r.chunks| && k < |r.chunks[i].providers| && Waiting(r.chunks[i])
    requires r.downloading[r.chunks[i].providers[k]] == -1
    ensures Inv(Assign(r, i, k)) && Monotone(r, Assign(r, i, k))
  {
    hide Assign, Matches;
    AssignEffect(r, i, k);
    var t := Assign(r, i, k);
    AllMissing(NoneReceived(), 0);
    assert Counted(t.chunks[i]);
    UnfinishedSame(r.chunks, t.chunks, 0);
  }

  lemma {:induction false} RequestNextKeeps(r: Requestor, i: nat)
    requires Inv(r)
    ensures Inv(RequestNext(r, i).0) && Monotone(r, RequestNext(r, i).0)
    decreases |r.chunks| - i
  {
    hide Assign, Matches, Pick;
    if i < |r.chunks| {
      if !Waiting(r.chunks[i]) {
        RequestNextKeeps(r, i + 1);
      } else if r.chunks[i].providers != [] {
        match Pick(r.chunks[i], r.downloading)
        case None => RequestNextKeeps(r, i + 1);
        case Some(k) => AssignKeeps(r, i, k);
      }
    }
  }

  lemma {:induction false} RetryAllKeeps(r: Requestor)
    requires Inv(r)
    ensures Inv(RetryAll(r)) && Monotone(r, RetryAll(r))
    decreases WaitingCount(r.chunks, 0)
  {
    hide RequestNext, Inverse, Written;
    RequestNextKeeps(r, 0);
    RequestNextAssigns(r, 0);
    if RequestNext(r, 0).1 == 1 {
      RetryAllKeeps(RequestNext(r, 0).0);
    }
  }

  lemma ExpireOneKeeps(r: Requestor, i: nat)
    requires Inv(r) && i < |r.chunks|
    ensures Inv(ExpireOne(r, i)) && Monotone(r, ExpireOne(r, i))
  {
    hide Matches, Inverse, Distinct;
    UnfinishedSame(r.chunks, ExpireOne(r, i).chunks, 0);
    InverseAfterExpiry(r, i);
  }

  lemma InverseAfterExpiry(r: Requestor, i: nat)
    requires Shaped(r) && Inverse(r) && i < |r.chunks|
    ensures Inverse(ExpireOne(r, i))
  {
    hide Counted;
    CountedDepends(r.chunks[i], ExpireOne(r, i).chunks[i]);
  }

  lemma {:induction false} ExpireKeeps(r: Requestor, i: nat)
    requires Inv(r)
    ensures Inv(Expire(r, i)) && Monotone(r, Expire(r, i))
    decreases |r.chunks| - i
  {
    hide ExpireOne, Inverse, Written;
    if i < |r.chunks| {
      ExpireOneKeeps(r, i);
      ExpireKeeps(ExpireOne(r, i), i + 1);
    }
  }

  lemma TickKeeps(r: Requestor)
    requires Inv(r)
    ensures Inv(Tick(r)) && Monotone(r, Tick(r))
  {
    hide Inverse, Written, Expire, RetryAll;
    ExpireShape(r, 0);
    ExpireKeeps(r, 0);
    RetryAllKeeps(Expire(r, 0));
  }

  lemma AddOneKeeps(r: Requestor, peer: nat, i: nat)
    requires Inv(r) && peer < MAX_PEERS && i < |r.chunks| && peer !in r.chunks[i].providers
    ensures var t := r.(chunks := r.chunks[i := r.chunks[i].(providers := r.chunks[i].providers + [peer])]);
      Inv(t) && Monotone(r, t)
  {
    hide Matches, Counted;
    var t := r.(chunks := r.chunks[i := r.chunks[i].(providers := r.chunks[i].providers + [peer])]);
    UnfinishedSame(r.chunks, t.chunks, 0);
    assert Counted(r.chunks[i]) == Counted(t.chunks[i]) by { CountedDepends(r.chunks[i], t.chunks[i]); }
  }

  lemma CountedDepends(c: Chunk, d: Chunk)
    requires d.recved == c.recved && d.left == c.left && d.curAck == c.curAck
    ensures Counted(c) == Counted(d)
  {}

  lemma {:induction false} AddToKeeps(r: Requestor, hash: string, peer: nat, i: nat)
    requires Inv(r) && peer < MAX_PEERS
    ensures Inv(AddTo(r, hash, peer, i)) && Monotone(r, AddTo(r, hash, peer, i))
    decreases |r.chunks| - i
  {
    hide Inverse, Written, SameHash, Distinct, Monotone, Unfinished;
    if i < |r.chunks| {
      if SameHash(r.chunks[i].hash, hash) && peer !in r.chunks[i].providers {
        AddOneKeeps(r, peer, i);
        var t := r.(chunks := r.chunks[i := r.chunks[i].(providers := r.chunks[i].providers + [peer])]);
        AddToKeeps(t, hash, peer, i + 1);
        MonotoneJoins(r, t, AddTo(r, hash, peer, i));
      } else {
        AddToKeeps(r, hash, peer, i + 1);
      }
    } else {
      MonotoneSame(r);
    }
  }

  lemma AddProviderKeeps(r: Requestor, hash: string, peer: nat)
    requires Inv(r) && peer < MAX_PEERS
    ensures Inv(AddProvider(r, hash, peer)) && Monotone(r, AddProvider(r, hash, peer))
  {
    hide Inverse, Written, AddTo, RequestNext;
    AddToKeeps(r, hash, peer, 0);
    RequestNextKeeps(AddTo(r, hash, peer, 0), 0);
  }

  /** The requestor after chunk i, being served, has become d and the message m has been sent. */
  function WithChunk(r: Requestor, i: nat, d: Chunk, m: Message): Requestor
    requires i < |r.chunks|
  {
    Say(r.(chunks := r.chunks[i := d]), m)
  }

  /** d is chunk c with other data, bitmap and counters. */
  ghost predicate SameTransfer(c: Chunk, d: Chunk) {
    && ChunkShaped(d)
    && d.providers == c.providers && d.curProvider == c.curProvider && d.finished == c.finished && d.hash == c.hash
  }

  lemma DataKeeps(r: Requestor, i: nat, d: Chunk, m: Message)
    requires Inv(r) && i < |r.chunks| && r.chunks[i].curProvider != -1 && SameTransfer(r.chunks[i], d)
    requires Counted(d) && d.left > 0 && d.lastPacket == BT_DATA_TIMEOUT
    ensures Inv(WithChunk(r, i, d, m)) && Monotone(r, WithChunk(r, i, d, m))
  {
    hide Matches, Counted;
    UnfinishedSame(r.chunks, WithChunk(r, i, d, m).chunks, 0);
  }

  lemma RejectKeeps(r: Requestor, i: nat, d: Chunk, m: Message)
    requires Inv(r) && i < |r.chunks| && r.chunks[i].curProvider != -1 && SameTransfer(r.chunks[i], d)
    ensures Shaped(WithChunk(r, i, d, m))
    ensures var t := Reject(WithChunk(r, i, d, m), i); Inv(t) && Monotone(r, t)
  {
    hide Matches, Counted;
    UnfinishedSame(r.chunks, Reject(WithChunk(r, i, d, m), i).chunks, 0);
  }

  lemma AcceptKeeps(r: Requestor, i: nat, d: Chunk, m: Message)
    requires Inv(r) && i < |r.chunks| && r.chunks[i].curProvider != -1 && SameTransfer(r.chunks[i], d)
    requires Matches(d.dataBuf, d.hash)
    ensures Shaped(WithChunk(r, i, d, m))
    ensures var t := EndIfDone(Accept(WithChunk(r, i, d, m), i)); Inv(t) && Monotone(r, t)
  {
    hide Matches, Counted, Inverse, Written, Distinct;
    var t := Accept(WithChunk(r, i, d, m), i);
    AcceptedIsInverse(r, i, d, m);
    AcceptedIsWritten(r, i, d, m);
    UnfinishedDrops(r.chunks, t.chunks, 0, i);
    IndexesOnly(t, EndIfDone(t));
  }

  function EndIfDone(t: Requestor): Requestor {
    if t.left == 0 then t.(inProgress := false) else t
  }

  lemma IndexesOnly(t: Requestor, u: Requestor)
    requires Shaped(t) && Inverse(t) && Written(t)
    requires u.downloading == t.downloading && u.chunks == t.chunks && u.output == t.output
    ensures Shaped(u) && Inverse(u) && Written(u)
  {}

  lemma AcceptedIsInverse(r: Requestor, i: nat, d: Chunk, m: Message)
    requires Shaped(r) && Inverse(r) && i < |r.chunks| && r.chunks[i].curProvider != -1 && SameTransfer(r.chunks[i], d)
    ensures Shaped(WithChunk(r, i, d, m))
    ensures Inverse(Accept(WithChunk(r, i, d, m), i)) && !r.chunks[i].finished
  {
    hide Counted;
  }

  lemma AcceptedIsWritten(r: Requestor, i: nat, d: Chunk, m: Message)
    requires Shaped(r) && Inverse(r) && Written(r)
    requires i < |r.chunks| && r.chunks[i].curProvider != -1 && SameTransfer(r.chunks[i], d)
    requires Matches(d.dataBuf, d.hash)
    ensures Shaped(WithChunk(r, i, d, m))
    ensures Written(Accept(WithChunk(r, i, d, m), i)) && Monotone(r, Accept(WithChunk(r, i, d, m), i))
  {
    hide Matches, Counted, Present, Absent, Write, Keeps;
    var t := Accept(WithChunk(r, i, d, m), i);
    WriteKeeps(r.output, i, d.dataBuf);
    forall j | 0 <= j < |t.chunks|
      ensures if t.chunks[j].finished then Delivered(t.output, j, t.chunks[j].hash) else Absent(t.output, j)
    {
      WriteRegion(r.output, i, d.dataBuf, j);
    }
  }

  lemma FinishKeeps(r: Requestor, i: nat, d: Chunk, m: Message)
    requires Inv(r) && i < |r.chunks| && r.chunks[i].curProvider != -1 && SameTransfer(r.chunks[i], d)
    ensures Shaped(WithChunk(r, i, d, m))
    ensures var t := FinishChunk(WithChunk(r, i, d, m), i, Hex(Sha1Spec.Digest(d.dataBuf))); Inv(t) && Monotone(r, t)
  {
    hide Inverse, Written, Reject, Accept, RequestNext, Sha1Spec.Digest, Hex, SameHash, Distinct;
    if Matches(d.dataBuf, d.hash) {
      AcceptKeeps(r, i, d, m);
      var t := Accept(WithChunk(r, i, d, m), i);
      if t.left != 0 {
        RequestNextKeeps(t, 0);
      }
    } else {
      RejectKeeps(r, i, d, m);
      RequestNextKeeps(Reject(WithChunk(r, i, d, m), i), 0);
    }
  }

  lemma UpdateDataKeeps(r: Requestor, peer: nat, n: nat, payload: seq<byte>)
    requires Inv(r) && peer < MAX_PEERS && |payload| == PACKET_SIZE && (r.downloading[peer] == -1 || n < BUFFER_LEN)
    ensures var t := UpdateData(r, peer, n, payload); Inv(t) && Monotone(r, t)
  {
    hide Receive, Counted, FinishChunk, Sha1Spec.Digest, Hex, Written, Distinct;
    var i := r.downloading[peer];
    if i != -1 {
      CountedRange(r.chunks[i]);
      if n >= r.chunks[i].curAck {
        var d := Receive(r.chunks[i], n, payload);
        ReceiveKeepsCounted(r.chunks[i], n, payload);
        ReceiveKeepsTransfer(r.chunks[i], n, payload);
        CountedRange(d);
        if d.left > 0 {
          DataKeeps(r, i, d, Ack(peer, d.curAck));
        } else {
          FinishKeeps(r, i, d, Ack(peer, d.curAck));
        }
      }
    }
  }

  lemma CountedRange(c: Chunk)
    requires Counted(c)
    ensures 0 <= c.curAck <= BUFFER_LEN && c.left >= 0
  {}

  lemma ReceiveKeepsTransfer(c: Chunk, n: nat, payload: seq<byte>)
    requires ChunkShaped(c) && 0 <= c.curAck <= BUFFER_LEN && n < BUFFER_LEN && |payload| == PACKET_SIZE
    ensures SameTransfer(c, Receive(c, n, payload)) && Receive(c, n, payload).lastPacket == BT_DATA_TIMEOUT
  {}

  // Whole downloads

  datatype Event =
    | DataEvent(peer: nat, seqNum: nat, payload: seq<byte>)
    | IHaveEvent(peer: nat, hash: string)
    | TickEvent

  /** What the dispatch accepts: a known peer, a packet number within a chunk, a whole payload. */
  ghost predicate Proper(e: Event) {
    match e
    case DataEvent(p, n, d) => p < MAX_PEERS && n < BUFFER_LEN && |d| == PACKET_SIZE
    case IHaveEvent(p, _) => p < MAX_PEERS
    case TickEvent => true
  }

  /** One event; packets are ignored once the download is over. */
  ghost function Step(r: Requestor, e: Event): Requestor
    requires Inv(r) && Proper(e)
  {
    if !r.inProgress then r
    else
      match e
      case DataEvent(p, n, d) => UpdateData(r, p, n, d)
      case IHaveEvent(p, hash) => AddProvider(r, hash, p)
      case TickEvent => Tick(r)
  }

  lemma StepKeeps(r: Requestor, e: Event)
    requires Inv(r) && Proper(e)
    ensures Inv(Step(r, e)) && Monotone(r, Step(r, e))
  {
    hide Inverse, Written, UpdateData, AddProvider, Tick;
    match e
    case DataEvent(p, n, d) => UpdateDataKeeps(r, p, n, d);
    case IHaveEvent(p, hash) => AddProviderKeeps(r, hash, p);
    case TickEvent => TickKeeps(r);
  }

  ghost predicate AllProper(es: seq<Event>) {
    forall k :: 0 <= k < |es| ==> Proper(es[k])
  }

  ghost function Run(r: Requestor, es: seq<Event>): (t: Requestor)
    requires Inv(r) && AllProper(es)
    ensures Inv(t)
    decreases |es|
  {
    if es == [] then r
    else
      StepKeeps(r, es[0]);
      Run(Step(r, es[0]), es[1..])
  }

  lemma {:induction false} RunAppend(r: Requestor, es: seq<Event>, e: Event)
    requires Inv(r) && AllProper(es) && Proper(e)
    ensures AllProper(es + [e]) && Run(r, es + [e]) == Step(Run(r, es), e)
    decreases |es|
  {
    hide Inv, Step;
    if es == [] {
      assert es + [e] == [e];
      StepKeeps(r, e);
      assert [e][1..] == [];
    } else {
      StepKeeps(r, es[0]);
      assert (es + [e])[1..] == es[1..] + [e];
      RunAppend(Step(r, es[0]), es[1..], e);
    }
  }

  /**
   * Over every run, from the first request on: a region written stays as it is, a finished chunk stays finished,
   * and what is in the output has the digest asked for.
   */
  lemma {:induction false} RunIsMonotone(r: Requestor, es: seq<Event>)
    requires Inv(r) && AllProper(es)
    ensures Monotone(r, Run(r, es))
    decreases |es|
  {
    hide Inv;
    if es != [] {
      StepKeeps(r, es[0]);
      RunIsMonotone(Step(r, es[0]), es[1..]);
    }
  }

  /**
   * In every reachable state peers and chunks in transfer are paired one to one: a peer is noted as sending chunk i
   * exactly if that chunk names it as its provider, and then the chunk is unfinished, has one to five ticks left, and
   * its counters are those of its bitmap. `left` is the number of unfinished chunks.
   */
  lemma PeersAndChunksArePaired(hashes: seq<string>, memory: seq<Chunk>, es: seq<Event>)
    requires |memory| == |hashes| && AllProper(es)
    requires forall i :: 0 <= i < |memory| ==> |memory[i].dataBuf| == CHUNK_SIZE
    ensures Inv(InitRequestor(hashes, memory))
    ensures var r := Run(InitRequestor(hashes, memory), es);
      && |r.downloading| == MAX_PEERS
      && (forall p, i :: 0 <= p < MAX_PEERS && 0 <= i < |r.chunks| ==>
           (r.downloading[p] == i <==> r.chunks[i].curProvider == p))
      && (forall i :: 0 <= i < |r.chunks| && r.chunks[i].curProvider != -1 ==>
           !r.chunks[i].finished && 1 <= r.chunks[i].lastPacket <= BT_DATA_TIMEOUT && Counted(r.chunks[i]))
      && r.left == Unfinished(r.chunks, 0)
  {
    hide Counted, Written;
    InitKeeps(hashes, memory);
  }

  ghost predicate Complete(r: Requestor) {
    forall i :: 0 <= i < |r.chunks| ==> Delivered(r.output, i, r.chunks[i].hash)
  }

  /** A download of at least one chunk is over exactly when every region holds contents of the requested digest. */
  lemma EndsWhenComplete(hashes: seq<string>, memory: seq<Chunk>, es: seq<Event>)
    requires |memory| == |hashes| && AllProper(es)
    requires forall i :: 0 <= i < |memory| ==> |memory[i].dataBuf| == CHUNK_SIZE
    ensures Inv(InitRequestor(hashes, memory))
    ensures var r := Run(InitRequestor(hashes, memory), es);
      && (hashes != [] ==> (!r.inProgress <==> Complete(r)))
      && |r.chunks| == |hashes| && forall i :: 0 <= i < |hashes| ==> r.chunks[i].hash == hashes[i]
  {
    hide Inverse, Matches;
    InitKeeps(hashes, memory);
    var r := Run(InitRequestor(hashes, memory), es);
    RunIsMonotone(InitRequestor(hashes, memory), es);
    AllFinished(r.chunks, 0);
    forall i | 0 <= i < |r.chunks| && Present(r.output, i) ensures !Absent(r.output, i) {
      assert Within(i, i * CHUNK_SIZE);
    }
  }

  /** An empty chunk list has nothing to download, but such a download never ends. */
  lemma {:induction false} EmptyDownloadNeverEnds(es: seq<Event>, r: Requestor)
    requires Inv(r) && r.chunks == [] && r.inProgress && AllProper(es)
    ensures Run(r, es).inProgress && Complete(Run(r, es))
    decreases |es|
  {
    if es != [] {
      var t := Step(r, es[0]);
      StepKeeps(r, es[0]);
      assert t.inProgress;
      EmptyDownloadNeverEnds(es[1..], t);
    }
  }

  // Facts the object's dispatch relies on

  lemma RunOfOne(r: Requestor, es: seq<Event>)
    requires Inv(r) && AllProper(es)
    ensures Shaped(r)
    ensures es == [] ==> Run(r, es) == r
    ensures |es| == 1 ==> Run(r, es) == Step(r, es[0])
  {
    if |es| == 1 {
      StepKeeps(r, es[0]);
      assert Run(Step(r, es[0]), es[1..]) == Step(r, es[0]);
    }
  }

  lemma {:induction false} IdleRun(r: Requestor, es: seq<Event>)
    requires Inv(r) && AllProper(es) && !r.inProgress
    ensures Run(r, es) == r
    decreases |es|
  {
    if es != [] {
      IdleRun(r, es[1..]);
    }
  }

  lemma UpdatePrecondition(r: Requestor, peer: nat)
    requires Inv(r) && peer < MAX_PEERS
    ensures Shaped(r)
    ensures r.downloading[peer] != -1 ==>
      var c := r.chunks[r.downloading[peer]]; 0 <= c.curAck <= BUFFER_LEN && c.curProvider >= 0
  {
    if r.downloading[peer] != -1 {
      CountedRange(r.chunks[r.downloading[peer]]);
    }
  }

  lemma AddProviderGoesOn(r: Requestor, hash: string, peer: nat)
    requires Inv(r) && peer < MAX_PEERS
    ensures Shaped(r) && AddProvider(r, hash, peer).inProgress == r.inProgress
  {
    AddToGoesOn(r, hash, peer, 0);
    RequestNextAssigns(AddTo(r, hash, peer, 0), 0);
  }

  lemma {:induction false} AddToGoesOn(r: Requestor, hash: string, peer: nat, i: nat)
    requires Shaped(r) && peer < MAX_PEERS
    ensures AddTo(r, hash, peer, i).inProgress == r.inProgress
    decreases |r.chunks| - i
  {
    if i < |r.chunks| {
      var c := r.chunks[i];
      AddToGoesOn(if SameHash(c.hash, hash) && peer !in c.providers
                  then r.(chunks := r.chunks[i := c.(providers := c.providers + [peer])]) else r, hash, peer, i + 1);
    }
  }
}
