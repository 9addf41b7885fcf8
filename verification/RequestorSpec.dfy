/** The download side (bt_requestor_t) and what each function of requestor.c does to it. */
module RequestorSpec {
  import opened Common
  import opened Sha1Spec

  const BT_DATA_TIMEOUT := 5
  const HASH_CHARS: nat := 40

  /**
   * chunk_status_t. `providers` is the used part of the provider array; `lastProvider` starts at
   * whatever malloc left there.
   */
  datatype Chunk = Chunk(
    curAck: int, lastProvider: nat, lastPacket: int, dataBuf: seq<byte>, left: int, recved: seq<bool>,
    providers: seq<nat>, curProvider: int, finished: bool, hash: string)

  /** What the requestor hands to the network. */
  datatype Message = WhoHas(chunk: nat) | Get(peer: nat, chunk: nat) | Ack(peer: nat, ackNum: nat)

  /** bt_requestor_t, the output file as the bytes written so far, by offset, and the log of sent messages. */
  datatype Requestor = Requestor(
    inProgress: bool, downloading: seq<int>, chunks: seq<Chunk>, left: int,
    output: map<nat, byte>, log: seq<Message>)

  /** Array shapes and index ranges that C leaves to the caller. */
  ghost predicate InRange(providers: seq<nat>) {
    forall k :: 0 <= k < |providers| ==> providers[k] < MAX_PEERS
  }

  ghost predicate ChunkShaped(c: Chunk) {
    && |c.dataBuf| == CHUNK_SIZE && |c.recved| == BUFFER_LEN
    && InRange(c.providers)
  }

  ghost predicate Shaped(r: Requestor) {
    && |r.downloading| == MAX_PEERS
    && (forall i :: 0 <= i < |r.chunks| ==> ChunkShaped(r.chunks[i]) && -1 <= r.chunks[i].curProvider < MAX_PEERS)
    && (forall p :: 0 <= p < MAX_PEERS ==> -1 <= r.downloading[p] < |r.chunks|)
  }

  function NoneReceived(): (s: seq<bool>)
    ensures |s| == BUFFER_LEN
    ensures forall i :: 0 <= i < BUFFER_LEN ==> !s[i]
  {
    seq(BUFFER_LEN, _ => false)
  }

  /** A chunk record as init_requestor leaves it; what it does not set stays as it was in memory. */
  function InitChunk(c: Chunk, hash: string): Chunk {
    c.(hash := hash, recved := NoneReceived(), providers := [], left := BUFFER_LEN,
       curProvider := -1, finished := false)
  }

  function InitRequestor(hashes: seq<string>, memory: seq<Chunk>): Requestor
    requires |memory| == |hashes|
  {
    Requestor(true, seq(MAX_PEERS, _ => -1),
              seq(|hashes|, i requires 0 <= i < |hashes| => InitChunk(memory[i], hashes[i])), |hashes|,
              map[], seq(|hashes|, i requires 0 <= i < |hashes| => WhoHas(i)))
  }

  lemma InitShaped(hashes: seq<string>, memory: seq<Chunk>)
    requires |memory| == |hashes| && forall i :: 0 <= i < |memory| ==> |memory[i].dataBuf| == CHUNK_SIZE
    ensures Shaped(InitRequestor(hashes, memory))
  {}

  function Say(r: Requestor, m: Message): Requestor { r.(log := r.log + [m]) }

  /** Equality of the first forty characters, as strncmp sees it. */
  predicate SameHash(a: string, b: string) {
    Cut(a) == Cut(b)
  }

  function Cut(s: string): string {
    if |s| > HASH_CHARS then s[..HASH_CHARS] else s
  }

  /** The list position after i, in cyclic order. */
  function Following(i: nat, n: nat): (k: nat)
    requires n > 0
    ensures k < n
  {
    (i + 1) % n
  }

  /** find_next_provider from list position i on, with j providers already seen busy; the position found. */
  function NextFree(c: Chunk, downloading: seq<int>, i: nat, j: nat): (r: Option<nat>)
    requires |downloading| == MAX_PEERS && InRange(c.providers) && i < |c.providers|
    ensures r.Some? ==> r.value < |c.providers| && downloading[c.providers[r.value]] == -1
    decreases |c.providers| - j
  {
    if j >= |c.providers| then None
    else if downloading[c.providers[i]] == -1 then Some(i)
    else NextFree(c, downloading, Following(i, |c.providers|), j + 1)
  }

  /** The choice of find_next_provider for a chunk with providers. */
  function Pick(c: Chunk, downloading: seq<int>): (r: Option<nat>)
    requires |downloading| == MAX_PEERS && InRange(c.providers) && c.providers != []
    ensures r.Some? ==> r.value < |c.providers| && downloading[c.providers[r.value]] == -1
  {
    NextFree(c, downloading, Following(c.lastProvider, |c.providers|), 0)
  }

  function SendGet(r: Requestor, provider: nat, chunk: nat): Requestor
    requires Shaped(r) && provider < MAX_PEERS && chunk < |r.chunks|
  {
    if r.downloading[provider] != -1 then r
    else
      Say(r.(downloading := r.downloading[provider := chunk],
             chunks := r.chunks[chunk := Restart(r.chunks[chunk], provider)]),
          Get(provider, chunk))
  }

  /** A chunk record at the start of a transfer. */
  function Restart(c: Chunk, provider: nat): Chunk {
    c.(curProvider := provider, left := BUFFER_LEN, lastPacket := BT_DATA_TIMEOUT,
       recved := NoneReceived(), curAck := 0)
  }

  predicate Waiting(c: Chunk) { !c.finished && c.curProvider == -1 }

  /** The provider at list position k is chosen and asked for chunk i. */
  function Assign(r: Requestor, i: nat, k: nat): Requestor
    requires Shaped(r) && i < |r.chunks| && k < |r.chunks[i].providers|
  {
    var t := r.(chunks := r.chunks[i := r.chunks[i].(lastProvider := k)]);
    SendGet(t, r.chunks[i].providers[k], i)
  }

  /** request_next_chunk from chunk i on: the new state and the return value. */
  function RequestNext(r: Requestor, i: nat): (Requestor, int)
    requires Shaped(r)
    decreases |r.chunks| - i
  {
    if i >= |r.chunks| then (r, 0)
    else if !Waiting(r.chunks[i]) then RequestNext(r, i + 1)
    else if r.chunks[i].providers == [] then (Say(r, WhoHas(i)), -1)
    else
      match Pick(r.chunks[i], r.downloading)
      case None => RequestNext(r, i + 1)
      case Some(k) =>
        (Assign(r, i, k), 1)
  }

  /** The countdown loop of requstor_timeout, from chunk i on. */
  function Expire(r: Requestor, i: nat): Requestor
    requires Shaped(r)
    decreases |r.chunks| - i
  {
    if i >= |r.chunks| then r else Expire(ExpireOne(r, i), i + 1)
  }

  function ExpireOne(r: Requestor, i: nat): (t: Requestor)
    requires Shaped(r) && i < |r.chunks|
    ensures Shaped(t) && |t.chunks| == |r.chunks|
  {
    var c := r.chunks[i];
    if !c.finished && c.curProvider != -1 && c.lastPacket > 0 then
      if c.lastPacket - 1 == 0 then
        r.(downloading := r.downloading[c.curProvider := -1],
           chunks := r.chunks[i := c.(lastPacket := 0, curProvider := -1)])
      else r.(chunks := r.chunks[i := c.(lastPacket := c.lastPacket - 1)])
    else r
  }

  /** How many chunks from i on are unfinished and have no provider. */
  function WaitingCount(chunks: seq<Chunk>, i: nat): nat
    decreases |chunks| - i
  {
    if i >= |chunks| then 0 else (if Waiting(chunks[i]) then 1 else 0) + WaitingCount(chunks, i + 1)
  }

  lemma {:induction false} WaitingCountDrops(b: seq<Chunk>, c: seq<Chunk>, i: nat, k: nat)
    requires |b| == |c| && k < |b|
    requires forall j :: 0 <= j < |b| && j != k ==> c[j] == b[j]
    requires Waiting(b[k]) && !Waiting(c[k])
    ensures WaitingCount(c, i) == WaitingCount(b, i) - if i <= k then 1 else 0
    decreases |b| - i
  {
    if i < |b| {
      WaitingCountDrops(b, c, i + 1, k);
    }
  }

  lemma AssignEffect(r: Requestor, i: nat, k: nat)
    requires Shaped(r) && i < |r.chunks| && k < |r.chunks[i].providers|
    requires r.downloading[r.chunks[i].providers[k]] == -1
    ensures var t := Assign(r, i, k); var p := r.chunks[i].providers[k];
      && t == r.(chunks := t.chunks, downloading := r.downloading[p := i], log := r.log + [Get(p, i)])
      && t.chunks == r.chunks[i := Restart(r.chunks[i].(lastProvider := k), p)]
      && Shaped(t)
  {}

  /** request_next_chunk assigns the chunk it returns 1 for, and changes no other. */
  lemma {:induction false} RequestNextAssigns(r: Requestor, i: nat)
    requires Shaped(r)
    ensures var (t, ret) := RequestNext(r, i);
      && Shaped(t) && |t.chunks| == |r.chunks|
      && t.inProgress == r.inProgress && t.left == r.left && t.output == r.output
      && (ret == 1 ==> WaitingCount(t.chunks, 0) < WaitingCount(r.chunks, 0))
      && (ret != 1 ==> t.chunks == r.chunks && t.downloading == r.downloading)
    decreases |r.chunks| - i
  {
    hide Assign;
    if i < |r.chunks| {
      if !Waiting(r.chunks[i]) {
        RequestNextAssigns(r, i + 1);
      } else if r.chunks[i].providers != [] {
        match Pick(r.chunks[i], r.downloading)
        case None => RequestNextAssigns(r, i + 1);
        case Some(k) =>
          AssignEffect(r, i, k);
          WaitingCountDrops(r.chunks, Assign(r, i, k).chunks, 0, i);
      }
    }
  }

  /** The retry loop of requstor_timeout: as often as request_next_chunk returns 1. */
  function RetryAll(r: Requestor): (t: Requestor)
    requires Shaped(r)
    decreases WaitingCount(r.chunks, 0)
  {
    RequestNextAssigns(r, 0);
    var (t, ret) := RequestNext(r, 0);
    if ret == 1 then RetryAll(t) else t
  }

  function Tick(r: Requestor): Requestor
    requires Shaped(r)
  {
    if !r.inProgress then r
    else
      ExpireShape(r, 0);
      RetryAll(Expire(r, 0))
  }

  lemma {:induction false} ExpireShape(r: Requestor, i: nat)
    requires Shaped(r)
    ensures Shaped(Expire(r, i)) && |Expire(r, i).chunks| == |r.chunks|
    decreases |r.chunks| - i
  {
    if i < |r.chunks| {
      ExpireShape(ExpireOne(r, i), i + 1);
    }
  }

  /** The loop of add_provider from chunk i on. */
  function AddTo(r: Requestor, hash: string, peer: nat, i: nat): (t: Requestor)
    requires Shaped(r) && peer < MAX_PEERS
    ensures Shaped(t)
    decreases |r.chunks| - i
  {
    if i >= |r.chunks| then r
    else
      var c := r.chunks[i];
      var t := if SameHash(c.hash, hash) && peer !in c.providers
               then r.(chunks := r.chunks[i := c.(providers := c.providers + [peer])]) else r;
      AddTo(t, hash, peer, i + 1)
  }

  function AddProvider(r: Requestor, hash: string, peer: nat): Requestor
    requires Shaped(r) && peer < MAX_PEERS
  {
    RequestNext(AddTo(r, hash, peer, 0), 0).0
  }

  /** finish_chunk, given the lowercase hexadecimal digest of the chunk's buffer. */
  function FinishChunk(r: Requestor, chunk: nat, ascii: string): Requestor
    requires Shaped(r) && chunk < |r.chunks| && r.chunks[chunk].curProvider >= 0
  {
    if !SameHash(ascii, r.chunks[chunk].hash) then RequestNext(Reject(r, chunk), 0).0
    else
      var t := Accept(r, chunk);
      if t.left == 0 then t.(inProgress := false) else RequestNext(t, 0).0
  }

  /** The chunk is dropped and its provider released. */
  function Reject(r: Requestor, chunk: nat): (t: Requestor)
    requires Shaped(r) && chunk < |r.chunks| && r.chunks[chunk].curProvider >= 0
    ensures Shaped(t)
  {
    var c := r.chunks[chunk];
    r.(downloading := r.downloading[c.curProvider := -1],
       chunks := r.chunks[chunk :=
         c.(recved := NoneReceived(), left := BUFFER_LEN, curProvider := -1, finished := false)])
  }

  /** The chunk is written to its region of the output file and its provider released. */
  function Accept(r: Requestor, chunk: nat): (t: Requestor)
    requires Shaped(r) && chunk < |r.chunks| && r.chunks[chunk].curProvider >= 0
    ensures Shaped(t)
  {
    var c := r.chunks[chunk];
    r.(downloading := r.downloading[c.curProvider := -1],
       chunks := r.chunks[chunk := c.(finished := true, curProvider := -1, lastPacket := 0)],
       left := r.left - 1, output := Write(r.output, chunk * CHUNK_SIZE, c.dataBuf))
  }

  /** fwrite at an offset of the file. */
  function Write(file: map<nat, byte>, at: nat, data: seq<byte>): map<nat, byte> {
    file + map k: nat | k < at + |data| && InSpan(at, |data|, k) :: data[k - at]
  }

  /** Offset k is one of the n from `at` on. */
  predicate InSpan(at: nat, n: nat, k: nat) {
    at <= k < at + n
  }

  /** The cumulative acknowledgment: the first missing packet at or after i. */
  function FirstMissing(recved: seq<bool>, i: nat): (r: nat)
    requires i <= |recved|
    ensures i <= r <= |recved|
    ensures forall k :: i <= k < r ==> recved[k]
    ensures r < |recved| ==> !recved[r]
    decreases |recved| - i
  {
    if i < |recved| && recved[i] then FirstMissing(recved, i + 1) else i
  }

  /** The chunk part of update_data, for a packet that is not older than the cumulative acknowledgment. */
  function Receive(c: Chunk, n: nat, payload: seq<byte>): (d: Chunk)
    requires ChunkShaped(c) && 0 <= c.curAck <= BUFFER_LEN
    requires n < BUFFER_LEN && |payload| == PACKET_SIZE
    ensures ChunkShaped(d) && 0 <= c.curAck <= d.curAck <= BUFFER_LEN && d.curProvider == c.curProvider
  {
    var d := Store(c, n, payload);
    d.(curAck := FirstMissing(d.recved, c.curAck))
  }

  /** The packet is copied to its place and counted if it is new. */
  function Store(c: Chunk, n: nat, payload: seq<byte>): (d: Chunk)
    requires ChunkShaped(c) && n < BUFFER_LEN && |payload| == PACKET_SIZE
    ensures ChunkShaped(d)
  {
    c.(lastPacket := BT_DATA_TIMEOUT, dataBuf := Splice(c.dataBuf, n * PACKET_SIZE, payload),
       recved := c.recved[n := true], left := if c.recved[n] then c.left else c.left - 1)
  }

  /** memcpy of `payload` to position `offset` of `buf`. */
  function Splice(buf: seq<byte>, offset: nat, payload: seq<byte>): (r: seq<byte>)
    requires offset + |payload| <= |buf|
    ensures |r| == |buf|
  {
    buf[..offset] + payload + buf[offset + |payload|..]
  }

  lemma OneChunkKeepsShape(r: Requestor, i: nat, c: Chunk, m: Message)
    requires Shaped(r) && i < |r.chunks| && ChunkShaped(c) && c.curProvider == r.chunks[i].curProvider
    ensures Shaped(Say(r.(chunks := r.chunks[i := c]), m))
  {}

  /**
   * update_data. A number past the chunk is harmless from a peer that serves nothing; from one that does, the source
   * would write beyond the chunk's buffer.
   */
  function UpdateData(r: Requestor, peer: nat, n: nat, payload: seq<byte>): Requestor
    requires Shaped(r) && peer < MAX_PEERS && |payload| == PACKET_SIZE
    requires r.downloading[peer] == -1 || n < BUFFER_LEN
    requires r.downloading[peer] != -1 ==>
      var c := r.chunks[r.downloading[peer]]; 0 <= c.curAck <= BUFFER_LEN && c.curProvider >= 0
  {
    var chunk := r.downloading[peer];
    if chunk == -1 || n < r.chunks[chunk].curAck then r
    else
      var c := Receive(r.chunks[chunk], n, payload);
      var t := Say(r.(chunks := r.chunks[chunk := c]), Ack(peer, c.curAck));
      OneChunkKeepsShape(r, chunk, c, Ack(peer, c.curAck));
      if c.left == 0 then FinishChunk(t, chunk, Hex(Digest(c.dataBuf))) else t
  }

  /** binary2hex: two lowercase digits a byte. */
  function Hex(b: seq<byte>): (s: string)
    ensures |s| == 2 * |b|
  {
    if b == [] then "" else [HexDigit(b[0] >> 4), HexDigit(b[0] & 15)] + Hex(b[1..])
  }

  function HexDigit(d: byte): char {
    if d == 0 then '0' else if d == 1 then '1' else if d == 2 then '2' else if d == 3 then '3'
    else if d == 4 then '4' else if d == 5 then '5' else if d == 6 then '6' else if d == 7 then '7'
    else if d == 8 then '8' else if d == 9 then '9' else if d == 10 then 'a' else if d == 11 then 'b'
    else if d == 12 then 'c' else if d == 13 then 'd' else if d == 14 then 'e' else 'f'
  }
}
