/**
 * What an event does to a download, said by the numbers of the source and not by the parts that its handler is made of.
 */
module RequestorLaws {
  import opened Common
  import opened RequestorSpec
  import opened RequestorProofs
  import Scheduling
  import Sha1Spec

  // The search for something to ask

  /** Some provider of chunk i is not sending another chunk. */
  ghost predicate HasFree(r: Requestor, i: nat)
    requires Shaped(r) && i < |r.chunks|
  {
    exists k :: 0 <= k < |r.chunks[i].providers| && r.downloading[r.chunks[i].providers[k]] == -1
  }

  /** A search cannot pass over chunk i: it waits, and some provider is free or none is known. */
  ghost predicate Stops(r: Requestor, i: nat)
    requires Shaped(r) && i < |r.chunks|
  {
    var c := r.chunks[i];
    !c.finished && c.curProvider == -1 && (c.providers == [] || HasFree(r, i))
  }

  /** Chunk i is the first from chunk `from` on that a search cannot pass over. */
  ghost predicate FirstStop(r: Requestor, from: nat, i: int)
    requires Shaped(r)
  {
    from <= i < |r.chunks| && Stops(r, i) && forall j :: from <= j < i ==> !Stops(r, j)
  }

  /** c after it was asked of the provider at position k of its list: nothing received, and five ticks to go. */
  ghost predicate Begun(c: Chunk, k: int, d: Chunk) {
    && 0 <= k < |c.providers| && |d.recved| == 1024 && (forall j :: 0 <= j < 1024 ==> !d.recved[j])
    && d == c.(curProvider := c.providers[k], lastProvider := k, left := 1024, lastPacket := 5, curAck := 0,
               recved := d.recved)
  }

  /** t is r after chunk i was asked of a free provider, the one at position k of its list. */
  ghost predicate Asked(r: Requestor, i: int, k: int, t: Requestor)
    requires Shaped(r)
  {
    && 0 <= i < |r.chunks| && 0 <= k < |r.chunks[i].providers|
    && var q := r.chunks[i].providers[k];
       && r.downloading[q] == -1
       && |t.chunks| == |r.chunks| && Begun(r.chunks[i], k, t.chunks[i])
       && t == r.(downloading := r.downloading[q := i], chunks := r.chunks[i := t.chunks[i]],
                  log := r.log + [Get(q, i)])
  }

  /**
   * One search from chunk `from` on. At the first chunk that it cannot pass over it asks a free provider for the chunk
   * (1), or the network for a provider (-1); if there is no such chunk it does nothing (0).
   */
  ghost predicate Searched(r: Requestor, from: nat, t: Requestor, ret: int)
    requires Shaped(r)
  {
    if forall i :: from <= i < |r.chunks| ==> !Stops(r, i) then ret == 0 && t == r
    else exists i :: FirstStop(r, from, i) && StoppedAt(r, i, t, ret)
  }

  ghost predicate StoppedAt(r: Requestor, i: nat, t: Requestor, ret: int)
    requires Shaped(r) && i < |r.chunks|
  {
    if r.chunks[i].providers == [] then ret == -1 && t == r.(log := r.log + [WhoHas(i)])
    else ret == 1 && exists k: nat :: Asked(r, i, k, t)
  }

  lemma {:induction false} SearchLaw(r: Requestor, i: nat)
    requires Shaped(r)
    ensures Searched(r, i, RequestNext(r, i).0, RequestNext(r, i).1)
    decreases |r.chunks| - i
  {
    hide HasFree, Asked, Assign, Pick;
    if i < |r.chunks| {
      StopsAt(r, i);
      if Stops(r, i) {
        if r.chunks[i].providers != [] {
          AskLaw(r, i, Pick(r.chunks[i], r.downloading).value);
        }
        assert FirstStop(r, i, i) && StoppedAt(r, i, RequestNext(r, i).0, RequestNext(r, i).1);
      } else {
        SearchLaw(r, i + 1);
        SearchPassesOver(r, i, RequestNext(r, i + 1).0, RequestNext(r, i + 1).1);
      }
    }
  }

  lemma SearchPassesOver(r: Requestor, i: nat, t: Requestor, ret: int)
    requires Shaped(r) && i < |r.chunks| && !Stops(r, i) && Searched(r, i + 1, t, ret)
    ensures Searched(r, i, t, ret)
  {
    hide Stops, StoppedAt;
    if !(forall j :: i + 1 <= j < |r.chunks| ==> !Stops(r, j)) {
      var j :| FirstStop(r, i + 1, j) && StoppedAt(r, j, t, ret);
      assert FirstStop(r, i, j);
    }
  }

  lemma StopsAt(r: Requestor, i: nat)
    requires Shaped(r) && i < |r.chunks|
    ensures Stops(r, i) <==>
      Waiting(r.chunks[i]) && (r.chunks[i].providers == [] || Pick(r.chunks[i], r.downloading).Some?)
  {
    hide Pick;
    if r.chunks[i].providers != [] {
      PickFinds(r.chunks[i], r.downloading);
    }
  }

  /** A provider is picked if and only if one is free. */
  lemma PickFinds(c: Chunk, downloading: seq<int>)
    requires |downloading| == MAX_PEERS && InRange(c.providers) && c.providers != []
    ensures Pick(c, downloading).Some? <==>
      exists k :: 0 <= k < |c.providers| && downloading[c.providers[k]] == -1
  {
    hide Pick;
    Scheduling.PickIsFirstFree(c, downloading);
    forall k | 0 <= k < |c.providers| && downloading[c.providers[k]] == -1 ensures Pick(c, downloading).Some? {
      assert !Scheduling.Busy(c, downloading, k);
    }
  }

  lemma AskLaw(r: Requestor, i: nat, k: nat)
    requires Shaped(r) && i < |r.chunks| && k < |r.chunks[i].providers|
    requires r.downloading[r.chunks[i].providers[k]] == -1
    ensures Asked(r, i, k, Assign(r, i, k))
  {
    hide Assign;
    AssignEffect(r, i, k);
  }

  // The countdown of a tick

  /**
   * The countdown from chunk `from` on: a chunk in transfer has one tick less to go, and one that had its last tick
   * gives its provider back. Nothing else changes.
   */
  ghost predicate CountedDown(r: Requestor, from: nat, t: Requestor)
    requires Shaped(r)
  {
    && t == r.(chunks := t.chunks, downloading := t.downloading)
    && |t.chunks| == |r.chunks| && |t.downloading| == |r.downloading|
    && (forall i :: 0 <= i < |r.chunks| ==>
         var c := r.chunks[i];
         t.chunks[i] == if i < from || c.curProvider == -1 then c
                        else if c.lastPacket > 1 then c.(lastPacket := c.lastPacket - 1)
                        else c.(lastPacket := 0, curProvider := -1))
    && (forall p :: 0 <= p < |r.downloading| ==>
         var i := r.downloading[p];
         t.downloading[p] == if i != -1 && i >= from && r.chunks[i].lastPacket == 1 then -1 else i)
  }

  lemma {:induction false} CountdownLaw(r: Requestor, i: nat)
    requires Inv(r)
    ensures CountedDown(r, i, Expire(r, i))
    decreases |r.chunks| - i
  {
    hide Inv, ExpireOne, CountedDown;
    InvShape(r);
    if i < |r.chunks| {
      ExpireOneKeeps(r, i);
      CountdownLaw(ExpireOne(r, i), i + 1);
      ExpireOneLaw(r, i);
      OneMoreCounted(r, i, ExpireOne(r, i), Expire(r, i));
    } else {
      NoneCounted(r, i);
    }
  }

  lemma InvShape(r: Requestor)
    requires Inv(r)
    ensures Shaped(r)
  {}

  lemma NoneCounted(r: Requestor, i: nat)
    requires Shaped(r) && i >= |r.chunks|
    ensures CountedDown(r, i, r)
  {}

  lemma ExpireOneLaw(r: Requestor, i: nat)
    requires Inv(r) && i < |r.chunks|
    ensures Shaped(r)
    ensures var c, t := r.chunks[i], ExpireOne(r, i);
      && (c.curProvider == -1 ==> t == r)
      && (c.curProvider != -1 ==> r.downloading[c.curProvider] == i && 0 < c.lastPacket)
      && (c.curProvider != -1 && c.lastPacket > 1 ==>
           t == r.(chunks := r.chunks[i := c.(lastPacket := c.lastPacket - 1)]))
      && (c.curProvider != -1 && c.lastPacket == 1 ==>
           t == r.(chunks := r.chunks[i := c.(lastPacket := 0, curProvider := -1)],
                   downloading := r.downloading[c.curProvider := -1]))
    ensures forall p :: 0 <= p < MAX_PEERS && r.downloading[p] == i ==> r.chunks[i].curProvider == p
  {
    hide Written, Counted, Distinct, Unfinished;
  }

  lemma OneMoreCounted(r: Requestor, i: nat, u: Requestor, t: Requestor)
    requires Shaped(r) && Shaped(u) && i < |r.chunks| && |u.chunks| == |r.chunks|
    requires var c := r.chunks[i];
      && (c.curProvider == -1 ==> u == r)
      && (c.curProvider != -1 ==> r.downloading[c.curProvider] == i && 0 < c.lastPacket)
      && (c.curProvider != -1 && c.lastPacket > 1 ==>
           u == r.(chunks := r.chunks[i := c.(lastPacket := c.lastPacket - 1)]))
      && (c.curProvider != -1 && c.lastPacket == 1 ==>
           u == r.(chunks := r.chunks[i := c.(lastPacket := 0, curProvider := -1)],
                   downloading := r.downloading[c.curProvider := -1]))
    requires forall p :: 0 <= p < MAX_PEERS && r.downloading[p] == i ==> r.chunks[i].curProvider == p
    requires CountedDown(u, i + 1, t)
    ensures CountedDown(r, i, t)
  {}

  // The retries of a tick

  /** What searches leave alone, and what else they may do: begin the transfer of a waiting chunk and say so. */
  ghost predicate OnlyAsks(r: Requestor, t: Requestor)
    requires Shaped(r)
  {
    && t == r.(chunks := t.chunks, downloading := t.downloading, log := t.log)
    && |t.chunks| == |r.chunks| && |t.downloading| == |r.downloading| && r.log <= t.log
    && (forall p :: 0 <= p < |r.downloading| && r.downloading[p] != -1 ==> t.downloading[p] == r.downloading[p])
    && (forall i :: 0 <= i < |r.chunks| ==> t.chunks[i] == r.chunks[i] || NewlyAsked(r, i, t))
  }

  /** Chunk i waited in r, and in t it has just been asked of one of its providers. */
  ghost predicate NewlyAsked(r: Requestor, i: nat, t: Requestor)
    requires i < |r.chunks| == |t.chunks|
  {
    && !r.chunks[i].finished && r.chunks[i].curProvider == -1
    && exists k :: Begun(r.chunks[i], k, t.chunks[i]) && AskedOf(r, i, t.chunks[i].curProvider, t)
  }

  ghost predicate AskedOf(r: Requestor, i: nat, q: int, t: Requestor) {
    && 0 <= q < |t.downloading| && t.downloading[q] == i
    && r.log <= t.log && Get(q, i) in t.log[|r.log|..]
  }

  lemma OnlyAsksSame(r: Requestor)
    requires Shaped(r)
    ensures OnlyAsks(r, r)
  {}

  lemma SearchOnlyAsks(r: Requestor, from: nat, t: Requestor, ret: int)
    requires Shaped(r) && Searched(r, from, t, ret)
    ensures OnlyAsks(r, t)
  {
    hide Shaped, Stops, Asked, OnlyAsks;
    if forall i :: from <= i < |r.chunks| ==> !Stops(r, i) {
      OnlyAsksSame(r);
    } else {
      var i :| FirstStop(r, from, i) && StoppedAt(r, i, t, ret);
      if r.chunks[i].providers == [] {
        OnlySays(r, WhoHas(i));
      } else {
        var k: nat :| Asked(r, i, k, t);
        StopWaits(r, i);
        AskedOnlyAsks(r, i, k, t);
      }
    }
  }

  lemma StopWaits(r: Requestor, i: nat)
    requires Shaped(r) && i < |r.chunks| && Stops(r, i)
    ensures !r.chunks[i].finished && r.chunks[i].curProvider == -1
  {}

  lemma OnlySays(r: Requestor, m: Message)
    requires Shaped(r)
    ensures OnlyAsks(r, r.(log := r.log + [m]))
  {}

  lemma AskedOnlyAsks(r: Requestor, i: nat, k: nat, t: Requestor)
    requires Shaped(r) && i < |r.chunks| && Asked(r, i, k, t) && !r.chunks[i].finished && r.chunks[i].curProvider == -1
    ensures OnlyAsks(r, t)
  {
    hide Begun, NewlyAsked;
    AskedIsNew(r, i, k, t);
  }

  lemma AskedIsNew(r: Requestor, i: nat, k: nat, t: Requestor)
    requires Shaped(r) && i < |r.chunks| && Asked(r, i, k, t) && !r.chunks[i].finished && r.chunks[i].curProvider == -1
    ensures NewlyAsked(r, i, t)
  {
    assert t.log[|r.log|..] == [Get(r.chunks[i].providers[k], i)];
  }

  lemma OnlyAsksJoins(r: Requestor, s: Requestor, t: Requestor)
    requires Shaped(r) && Shaped(s) && OnlyAsks(r, s) && OnlyAsks(s, t)
    ensures OnlyAsks(r, t)
  {
    hide NewlyAsked;
    forall i | 0 <= i < |r.chunks| ensures t.chunks[i] == r.chunks[i] || NewlyAsked(r, i, t) {
      NewlyAskedJoins(r, s, t, i);
    }
  }

  lemma NewlyAskedJoins(r: Requestor, s: Requestor, t: Requestor, i: nat)
    requires Shaped(r) && Shaped(s) && i < |r.chunks| == |s.chunks| == |t.chunks|
    requires |t.downloading| == |s.downloading| == |r.downloading| && r.log <= s.log <= t.log
    requires forall p :: 0 <= p < |s.downloading| && s.downloading[p] != -1 ==> t.downloading[p] == s.downloading[p]
    requires s.chunks[i] == r.chunks[i] || NewlyAsked(r, i, s)
    requires t.chunks[i] == s.chunks[i] || NewlyAsked(s, i, t)
    ensures t.chunks[i] == r.chunks[i] || NewlyAsked(r, i, t)
  {
    if t.chunks[i] == s.chunks[i] {
      if NewlyAsked(r, i, s) {
        var q := s.chunks[i].curProvider;
        assert AskedOf(r, i, q, s) && s.log[|r.log|..] <= t.log[|r.log|..];
        assert AskedOf(r, i, q, t);
      }
    } else {
      var q := t.chunks[i].curProvider;
      assert AskedOf(s, i, q, t) && s.chunks[i].curProvider == -1;
      assert t.log[|s.log|..] == t.log[|r.log|..][|s.log| - |r.log|..];
      assert AskedOf(r, i, q, t);
    }
  }

  lemma {:induction false} RetriesOnlyAsk(r: Requestor)
    requires Shaped(r)
    ensures Shaped(RetryAll(r)) && OnlyAsks(r, RetryAll(r))
    decreases WaitingCount(r.chunks, 0)
  {
    hide RequestNext, Searched, OnlyAsks, Shaped;
    var (t, ret) := RequestNext(r, 0);
    RequestNextAssigns(r, 0);
    SearchLaw(r, 0);
    SearchOnlyAsks(r, 0, t, ret);
    if ret == 1 {
      RetriesOnlyAsk(t);
      OnlyAsksJoins(r, t, RetryAll(t));
    }
  }

  /**
   * A tick counts all transfers down, and then only asks. A transfer with more than one tick to go is held, with one
   * tick less; one that had its last tick is released, and may be asked anew.
   */
  lemma TickLaw(r: Requestor)
    requires Inv(r) && r.inProgress
    ensures Shaped(r) && Shaped(Expire(r, 0))
    ensures CountedDown(r, 0, Expire(r, 0)) && OnlyAsks(Expire(r, 0), Tick(r))
    ensures var t := Tick(r);
      && |t.chunks| == |r.chunks| && |t.downloading| == |r.downloading|
      && forall i :: 0 <= i < |r.chunks| && r.chunks[i].curProvider != -1 ==>
        if r.chunks[i].lastPacket > 1
        then t.chunks[i] == r.chunks[i].(lastPacket := r.chunks[i].lastPacket - 1)
             && t.downloading[r.chunks[i].curProvider] == i
        else Expire(r, 0).downloading[r.chunks[i].curProvider] == -1
             && (t.chunks[i] == r.chunks[i].(lastPacket := 0, curProvider := -1) || NewlyAsked(Expire(r, 0), i, t))
  {
    hide Expire, RetryAll, Begun, AskedOf, Written, Counted, Distinct, Unfinished;
    ExpireShape(r, 0);
    CountdownLaw(r, 0);
    RetriesOnlyAsk(Expire(r, 0));
  }

  // An offer

  /** strncmp of forty characters finds no difference. */
  predicate AlikeToForty(a: string, b: string) {
    (if |a| > 40 then a[..40] else a) == (if |b| > 40 then b[..40] else b)
  }

  /** The peer has joined, once, the list of every chunk of that hash from chunk `from` on, and no other list. */
  ghost predicate Offered(r: Requestor, hash: string, peer: nat, from: nat, t: Requestor) {
    && t == r.(chunks := t.chunks) && |t.chunks| == |r.chunks|
    && forall i :: 0 <= i < |r.chunks| ==>
      var c := r.chunks[i];
      t.chunks[i] == if i >= from && AlikeToForty(c.hash, hash) && peer !in c.providers
                     then c.(providers := c.providers + [peer]) else c
  }

  lemma {:induction false} AddToLaw(r: Requestor, hash: string, peer: nat, i: nat)
    requires Shaped(r) && peer < MAX_PEERS
    ensures Offered(r, hash, peer, i, AddTo(r, hash, peer, i))
    decreases |r.chunks| - i
  {
    hide AlikeToForty, SameHash, Shaped;
    if i < |r.chunks| {
      var c := r.chunks[i];
      SameHashIsAlike(c.hash, hash);
      var t := if SameHash(c.hash, hash) && peer !in c.providers
               then r.(chunks := r.chunks[i := c.(providers := c.providers + [peer])]) else r;
      ShapedAfterOffer(r, peer, i);
      AddToLaw(t, hash, peer, i + 1);
    }
  }

  lemma ShapedAfterOffer(r: Requestor, peer: nat, i: nat)
    requires Shaped(r) && peer < MAX_PEERS && i < |r.chunks|
    ensures Shaped(r.(chunks := r.chunks[i := r.chunks[i].(providers := r.chunks[i].providers + [peer])]))
  {}

  lemma SameHashIsAlike(a: string, b: string)
    ensures SameHash(a, b) <==> AlikeToForty(a, b)
  {}

  /** An offer lists the peer for exactly the chunks of that hash, and is followed by one search. */
  lemma OfferLaw(r: Requestor, hash: string, peer: nat)
    requires Shaped(r) && peer < MAX_PEERS
    ensures var u := AddTo(r, hash, peer, 0); var (t, ret) := RequestNext(u, 0);
      && AddProvider(r, hash, peer) == t
      && Offered(r, hash, peer, 0, u) && Searched(u, 0, t, ret)
  {
    AddToLaw(r, hash, peer, 0);
    SearchLaw(AddTo(r, hash, peer, 0), 0);
  }

  /** The peer is listed, once more where it was not, for exactly the chunks whose hash is among these. */
  ghost predicate AllOffered(r: Requestor, hashes: seq<string>, peer: nat, t: Requestor) {
    |t.chunks| == |r.chunks| && forall i :: 0 <= i < |r.chunks| ==> ListedFor(r.chunks[i], hashes, peer, t.chunks[i])
  }

  ghost predicate ListedFor(c: Chunk, hashes: seq<string>, peer: nat, d: Chunk) {
    && d.hash == c.hash
    && d.providers == if Among(c.hash, hashes) && peer !in c.providers then c.providers + [peer] else c.providers
  }

  ghost predicate Among(hash: string, hashes: seq<string>) {
    exists j :: 0 <= j < |hashes| && AlikeToForty(hash, hashes[j])
  }

  lemma OnlyAsksKeepsLists(r: Requestor, t: Requestor, i: nat)
    requires Shaped(r) && OnlyAsks(r, t) && i < |r.chunks| == |t.chunks|
    ensures t.chunks[i].hash == r.chunks[i].hash && t.chunks[i].providers == r.chunks[i].providers
  {}

  lemma OneOffered(r: Requestor, hash: string, peer: nat)
    requires Inv(r) && peer < MAX_PEERS
    ensures Shaped(r) && AllOffered(r, [hash], peer, AddProvider(r, hash, peer))
  {
    hide Inverse, Written, Counted, Distinct, Unfinished, AddTo, RequestNext, AlikeToForty, OnlyAsks, Searched;
    OfferLaw(r, hash, peer);
    var u := AddTo(r, hash, peer, 0);
    RequestNextAssigns(u, 0);
    SearchOnlyAsks(u, 0, RequestNext(u, 0).0, RequestNext(u, 0).1);
    var t := AddProvider(r, hash, peer);
    forall i | 0 <= i < |r.chunks| ensures ListedFor(r.chunks[i], [hash], peer, t.chunks[i]) {
      OnlyAsksKeepsLists(u, t, i);
      assert AlikeToForty(r.chunks[i].hash, hash) ==> AlikeToForty(r.chunks[i].hash, [hash][0]);
    }
  }

  lemma AlsoListed(c: Chunk, d: Chunk, e: Chunk, hashes: seq<string>, peer: nat)
    requires hashes != [] && ListedFor(c, [hashes[0]], peer, d) && ListedFor(d, hashes[1..], peer, e)
    ensures ListedFor(c, hashes, peer, e)
  {
    hide AlikeToForty;
    if Among(c.hash, [hashes[0]]) {
      assert AlikeToForty(c.hash, hashes[0]);
    }
    if Among(c.hash, hashes[1..]) {
      var j :| 0 <= j < |hashes[1..]| && AlikeToForty(c.hash, hashes[1..][j]);
      assert AlikeToForty(c.hash, hashes[j + 1]);
    }
    if Among(c.hash, hashes) {
      var j :| 0 <= j < |hashes| && AlikeToForty(c.hash, hashes[j]);
      assert j == 0 || hashes[1..][j - 1] == hashes[j];
      assert j == 0 ==> [hashes[0]][0] == hashes[j];
    }
  }

  /** A packet of offers lists the peer for exactly the chunks that it names, while the download is in progress. */
  lemma {:induction false} OffersLaw(r: Requestor, es: seq<Event>, hashes: seq<string>, peer: nat)
    requires Inv(r) && AllProper(es) && r.inProgress && peer < MAX_PEERS && |es| == |hashes|
    requires forall j :: 0 <= j < |es| ==> es[j] == IHaveEvent(peer, hashes[j])
    ensures AllOffered(r, hashes, peer, Run(r, es))
    decreases |es|
  {
    hide Inv, AddProvider, ListedFor;
    if es == [] {
      forall i | 0 <= i < |r.chunks| ensures ListedFor(r.chunks[i], hashes, peer, r.chunks[i]) {
        NothingListed(r.chunks[i], peer);
      }
    } else {
      StepKeeps(r, es[0]);
      AddProviderGoesOn(r, hashes[0], peer);
      var s := Step(r, es[0]);
      OneOffered(r, hashes[0], peer);
      OffersLaw(s, es[1..], hashes[1..], peer);
      forall i | 0 <= i < |r.chunks| ensures ListedFor(r.chunks[i], hashes, peer, Run(r, es).chunks[i]) {
        AlsoListed(r.chunks[i], s.chunks[i], Run(r, es).chunks[i], hashes, peer);
      }
    }
  }

  lemma NothingListed(c: Chunk, peer: nat)
    ensures ListedFor(c, [], peer, c)
  {}

  // Data

  /** c after packet n was stored: its bytes are in place, it is counted once, and five ticks are to go again. */
  ghost predicate Stored(c: Chunk, n: nat, payload: seq<byte>, d: Chunk)
    requires n < 1024 == |c.recved| && |payload| == 512 && |c.dataBuf| == 524288
  {
    && d == c.(dataBuf := d.dataBuf, recved := c.recved[n := true], left := d.left, lastPacket := 5, curAck := d.curAck)
    && |d.dataBuf| == 524288
    && (forall j :: 0 <= j < 524288 ==>
         d.dataBuf[j] == if 512 * n <= j < 512 * n + 512 then payload[j - 512 * n] else c.dataBuf[j])
    && d.left == (if c.recved[n] then c.left else c.left - 1)
    && 0 <= d.curAck <= 1024 && (forall k :: 0 <= k < d.curAck ==> d.recved[k])
    && (d.curAck < 1024 ==> !d.recved[d.curAck])
  }

  lemma StoreLaw(c: Chunk, n: nat, payload: seq<byte>)
    requires ChunkShaped(c) && Counted(c) && n < BUFFER_LEN && |payload| == PACKET_SIZE
    ensures Stored(c, n, payload, Receive(c, n, payload))
  {
    ReceiveKeepsCounted(c, n, payload);
  }

  /** v is u with chunk i finished: released, and in its place in the file. */
  ghost predicate Saved(u: Requestor, i: nat, p: nat, v: Requestor)
    requires i < |u.chunks| && p < |u.downloading| && |u.chunks[i].dataBuf| == 524288
  {
    && v == u.(downloading := u.downloading[p := -1], left := u.left - 1, output := v.output,
               chunks := u.chunks[i := u.chunks[i].(finished := true, curProvider := -1, lastPacket := 0)])
    && (forall k: nat :: k in v.output <==> k in u.output || Within(i, k))
    && (forall k: nat :: k in v.output ==>
         v.output[k] == if Within(i, k) then u.chunks[i].dataBuf[k - 524288 * i] else u.output[k])
  }

  /** w is u with chunk i dropped: released, with nothing received, and waiting. */
  ghost predicate Dropped(u: Requestor, i: nat, p: nat, w: Requestor)
    requires i < |u.chunks| && p < |u.downloading|
  {
    && |w.chunks| == |u.chunks| && |w.chunks[i].recved| == 1024
    && (forall k :: 0 <= k < 1024 ==> !w.chunks[i].recved[k])
    && w == u.(downloading := u.downloading[p := -1],
               chunks := u.chunks[i := u.chunks[i].(finished := false, curProvider := -1, left := 1024,
                                                    recved := w.chunks[i].recved)])
  }

  /**
   * What is left to do once chunk i, which p serves, is complete: if its contents have the digest asked for it is
   * saved, and the download ends with the last; otherwise it is dropped. Unless the download has ended, one search
   * follows.
   */
  ghost predicate Concluded(u: Requestor, i: nat, p: nat, t: Requestor)
    requires Shaped(u) && i < |u.chunks| && p < |u.downloading|
  {
    if Matches(u.chunks[i].dataBuf, u.chunks[i].hash) then
      exists v :: Saved(u, i, p, v) && WentOn(v, t)
    else
      exists w :: Dropped(u, i, p, w) && SearchedOnce(w, t)
  }

  ghost predicate WentOn(v: Requestor, t: Requestor) {
    Shaped(v) && if v.left == 0 then t == v.(inProgress := false) else SearchedOnce(v, t)
  }

  ghost predicate SearchedOnce(w: Requestor, t: Requestor) {
    Shaped(w) && exists ret :: Searched(w, 0, t, ret)
  }

  lemma FinishLaw(u: Requestor, i: nat, p: nat)
    requires Shaped(u) && i < |u.chunks| && u.chunks[i].curProvider == p
    ensures Concluded(u, i, p, FinishChunk(u, i, Hex(Sha1Spec.Digest(u.chunks[i].dataBuf))))
  {
    hide Shaped, Hex, SameHash, RequestNext, Searched, Sha1Spec.Digest, Accept, Reject, Saved, Dropped;
    if Matches(u.chunks[i].dataBuf, u.chunks[i].hash) {
      var v := Accept(u, i);
      AcceptLaw(u, i, p);
      SearchLaw(v, 0);
      assert v.left != 0 ==> SearchedOnce(v, RequestNext(v, 0).0);
    } else {
      var w := Reject(u, i);
      RejectLaw(u, i, p);
      SearchLaw(w, 0);
      assert SearchedOnce(w, RequestNext(w, 0).0);
    }
  }

  lemma AcceptLaw(u: Requestor, i: nat, p: nat)
    requires Shaped(u) && i < |u.chunks| && u.chunks[i].curProvider == p
    ensures p < |u.downloading| && |u.chunks[i].dataBuf| == 524288 && Saved(u, i, p, Accept(u, i))
  {}

  lemma RejectLaw(u: Requestor, i: nat, p: nat)
    requires Shaped(u) && i < |u.chunks| && u.chunks[i].curProvider == p
    ensures p < |u.downloading| && Dropped(u, i, p, Reject(u, i))
  {}

  /**
   * A data packet. From a peer that serves nothing, or below the cumulative ACK, it changes nothing. Otherwise it is
   * stored and answered with the cumulative ACK, and the last missing one concludes the chunk.
   */
  ghost predicate Received(r: Requestor, p: nat, n: nat, payload: seq<byte>, t: Requestor)
    requires Shaped(r) && p < MAX_PEERS && |payload| == 512 && (r.downloading[p] == -1 || n < 1024)
  {
    var i := r.downloading[p];
    if i == -1 || n < r.chunks[i].curAck then t == r
    else exists d :: Stored(r.chunks[i], n, payload, d) && Answered(r, p, i, d, t)
  }

  /** Chunk i has become d, which p is told of, and is concluded if nothing is left of it. */
  ghost predicate Answered(r: Requestor, p: nat, i: nat, d: Chunk, t: Requestor)
    requires Shaped(r) && p < MAX_PEERS && i < |r.chunks|
  {
    && 0 <= d.curAck
    && var u := r.(chunks := r.chunks[i := d], log := r.log + [Ack(p, d.curAck)]);
       && Shaped(u)
       && if d.left != 0 then t == u else Concluded(u, i, p, t)
  }

  lemma DataLaw(r: Requestor, p: nat, n: nat, payload: seq<byte>)
    requires Inv(r) && p < MAX_PEERS && |payload| == PACKET_SIZE && (r.downloading[p] == -1 || n < BUFFER_LEN)
    ensures Shaped(r)
    ensures Received(r, p, n, payload, UpdateData(r, p, n, payload))
  {
    hide Stored, Concluded, Receive, Counted, FinishChunk, Sha1Spec.Digest, Hex, Written, Distinct, Unfinished;
    var i := r.downloading[p];
    if i != -1 {
      CountedRange(r.chunks[i]);
      if n >= r.chunks[i].curAck {
        var d := Receive(r.chunks[i], n, payload);
        StoreLaw(r.chunks[i], n, payload);
        OneChunkKeepsShape(r, i, d, Ack(p, d.curAck));
        var u := r.(chunks := r.chunks[i := d], log := r.log + [Ack(p, d.curAck)]);
        assert u == Say(r.(chunks := r.chunks[i := d]), Ack(p, d.curAck));
        if d.left == 0 {
          FinishLaw(u, i, p);
        }
        assert Answered(r, p, i, d, UpdateData(r, p, n, payload));
      }
    }
  }

  // A provider that falls silent

  /** Chunk i is in transfer from p, as it was in r, with n ticks to go; only its list of providers may have grown. */
  ghost predicate Held(r: Requestor, i: nat, p: nat, n: int, t: Requestor) {
    && i < |r.chunks| == |t.chunks| && p < |t.downloading|
    && t.downloading[p] == i && t.chunks[i].curProvider == p && !t.chunks[i].finished
    && t.chunks[i] == r.chunks[i].(lastPacket := n, providers := t.chunks[i].providers)
    && r.chunks[i].providers <= t.chunks[i].providers
  }

  /** No packet of the run is data from p. */
  ghost predicate Silent(es: seq<Event>, p: nat) {
    forall k :: 0 <= k < |es| && es[k].DataEvent? ==> es[k].peer != p
  }

  function Ticks(es: seq<Event>): nat {
    if es == [] then 0 else (if es[0].TickEvent? then 1 else 0) + Ticks(es[1..])
  }

  lemma HeldJoins(r: Requestor, i: nat, p: nat, m: int, s: Requestor, n: int, t: Requestor)
    requires Held(r, i, p, m, s) && Held(s, i, p, n, t)
    ensures Held(r, i, p, n, t)
  {}

  lemma AskingHolds(r: Requestor, i: nat, p: nat, t: Requestor)
    requires Shaped(r) && OnlyAsks(r, t) && i < |r.chunks| && p < MAX_PEERS
    requires r.downloading[p] == i && r.chunks[i].curProvider == p && !r.chunks[i].finished
    ensures Held(r, i, p, r.chunks[i].lastPacket, t)
  {
    hide Begun, AskedOf;
  }

  lemma ConclusionHolds(u: Requestor, j: nat, q: nat, t: Requestor, i: nat, p: nat)
    requires Shaped(u) && j < |u.chunks| && q < |u.downloading| && Concluded(u, j, q, t)
    requires i < |u.chunks| && p < MAX_PEERS && i != j && p != q
    requires u.downloading[p] == i && u.chunks[i].curProvider == p && !u.chunks[i].finished
    ensures Held(u, i, p, u.chunks[i].lastPacket, t)
  {
    hide Shaped, Matches, SearchedOnce, Held, Saved, Dropped;
    ShapeFacts(u, j);
    var n := u.chunks[i].lastPacket;
    if Matches(u.chunks[j].dataBuf, u.chunks[j].hash) {
      var v :| Saved(u, j, q, v) && WentOn(v, t);
      SavedHolds(u, j, q, v, i, p);
      HeldFields(u, i, p, n, v);
      if v.left != 0 {
        SearchHolds(v, t, i, p);
        HeldJoins(u, i, p, n, v, n, t);
      } else {
        HeldIgnoresEnd(u, i, p, n, v);
      }
    } else {
      var w :| Dropped(u, j, q, w) && SearchedOnce(w, t);
      DroppedHolds(u, j, q, w, i, p);
      HeldFields(u, i, p, n, w);
      SearchHolds(w, t, i, p);
      HeldJoins(u, i, p, n, w, n, t);
    }
  }

  lemma ShapeFacts(r: Requestor, i: nat)
    requires Shaped(r) && i < |r.chunks|
    ensures |r.downloading| == 1024 && |r.chunks[i].dataBuf| == 524288 && |r.chunks[i].recved| == 1024
  {}

  lemma HeldIgnoresEnd(r: Requestor, i: nat, p: nat, n: int, t: Requestor)
    requires Held(r, i, p, n, t)
    ensures Held(r, i, p, n, t.(inProgress := false))
  {}

  lemma SavedHolds(u: Requestor, j: nat, q: nat, v: Requestor, i: nat, p: nat)
    requires j < |u.chunks| && q < |u.downloading| && |u.chunks[j].dataBuf| == 524288 && Saved(u, j, q, v)
    requires i < |u.chunks| && p < |u.downloading| && i != j && p != q
    requires u.downloading[p] == i && u.chunks[i].curProvider == p && !u.chunks[i].finished
    ensures Held(u, i, p, u.chunks[i].lastPacket, v)
  {
    hide Within;
  }

  lemma DroppedHolds(u: Requestor, j: nat, q: nat, w: Requestor, i: nat, p: nat)
    requires j < |u.chunks| && q < |u.downloading| && Dropped(u, j, q, w)
    requires i < |u.chunks| && p < |u.downloading| && i != j && p != q
    requires u.downloading[p] == i && u.chunks[i].curProvider == p && !u.chunks[i].finished
    ensures Held(u, i, p, u.chunks[i].lastPacket, w)
  {}

  lemma SearchHolds(r: Requestor, t: Requestor, i: nat, p: nat)
    requires SearchedOnce(r, t) && i < |r.chunks| && p < MAX_PEERS && p < |r.downloading|
    requires r.downloading[p] == i && r.chunks[i].curProvider == p && !r.chunks[i].finished
    ensures Held(r, i, p, r.chunks[i].lastPacket, t)
  {
    hide Shaped, Searched, OnlyAsks;
    var ret :| Searched(r, 0, t, ret);
    SearchOnlyAsks(r, 0, t, ret);
    AskingHolds(r, i, p, t);
  }

  lemma OtherDataHolds(r: Requestor, q: nat, n: nat, payload: seq<byte>, i: nat, p: nat)
    requires Inv(r) && q < MAX_PEERS && n < BUFFER_LEN && |payload| == PACKET_SIZE
    requires i < |r.chunks| && p < MAX_PEERS && p != q && r.downloading[p] == i
    ensures Held(r, i, p, r.chunks[i].lastPacket, UpdateData(r, q, n, payload))
  {
    hide Concluded, Stored, UpdateData, Written, Counted, Distinct, Unfinished;
    DataLaw(r, q, n, payload);
    UpdatePrecondition(r, q);
    var j, t := r.downloading[q], UpdateData(r, q, n, payload);
    if j != -1 && n >= r.chunks[j].curAck {
      var d :| Stored(r.chunks[j], n, payload, d) && Answered(r, q, j, d, t);
      var u := r.(chunks := r.chunks[j := d], log := r.log + [Ack(q, d.curAck)]);
      if d.left == 0 {
        ConclusionHolds(u, j, q, t, i, p);
      }
    }
  }

  lemma OfferHolds(r: Requestor, hash: string, q: nat, i: nat, p: nat)
    requires Inv(r) && q < MAX_PEERS && i < |r.chunks| && p < MAX_PEERS && r.downloading[p] == i
    ensures Held(r, i, p, r.chunks[i].lastPacket, AddProvider(r, hash, q))
  {
    hide AddTo, RequestNext, AlikeToForty, Searched, Written, Counted, Distinct, Unfinished;
    var u := AddTo(r, hash, q, 0);
    OfferLaw(r, hash, q);
    assert Held(r, i, p, r.chunks[i].lastPacket, u);
    assert SearchedOnce(u, RequestNext(u, 0).0);
    SearchHolds(u, RequestNext(u, 0).0, i, p);
    HeldJoins(r, i, p, r.chunks[i].lastPacket, u, u.chunks[i].lastPacket, RequestNext(u, 0).0);
  }

  lemma TickHolds(r: Requestor, i: nat, p: nat)
    requires Inv(r) && r.inProgress && i < |r.chunks| && p < MAX_PEERS && r.downloading[p] == i
    requires r.chunks[i].lastPacket > 1
    ensures Held(r, i, p, r.chunks[i].lastPacket - 1, Tick(r))
  {
    hide Tick, Expire, OnlyAsks, CountedDown, NewlyAsked, Written, Counted, Distinct, Unfinished;
    TickLaw(r);
  }

  lemma StillInProgress(r: Requestor, i: nat, p: nat)
    requires Inv(r) && i < |r.chunks| && p < MAX_PEERS && r.downloading[p] == i
    ensures r.inProgress && r.chunks[i].curProvider == p && !r.chunks[i].finished && 1 <= r.chunks[i].lastPacket <= 5
  {
    hide Written, Counted, Distinct;
    AllFinished(r.chunks, 0);
  }

  /**
   * While p is silent, a chunk in transfer from p is held for as long as ticks are to go, with one less at each tick.
   */
  lemma {:induction false} SilentIsHeld(r: Requestor, es: seq<Event>, i: nat, p: nat)
    requires Inv(r) && AllProper(es) && Silent(es, p) && i < |r.chunks| && p < MAX_PEERS && r.downloading[p] == i
    requires Ticks(es) < r.chunks[i].lastPacket
    ensures Held(r, i, p, r.chunks[i].lastPacket - Ticks(es), Run(r, es))
    decreases |es|
  {
    hide Inv, Held, Step;
    InvShape(r);
    StillInProgress(r, i, p);
    if es == [] {
      HeldNow(r, i, p);
    } else {
      StepHolds(r, es[0], i, p);
      StepKeeps(r, es[0]);
      var s := Step(r, es[0]);
      var n := r.chunks[i].lastPacket - if es[0].TickEvent? then 1 else 0;
      HeldFields(r, i, p, n, s);
      SilentIsHeld(s, es[1..], i, p);
      HeldJoins(r, i, p, n, s, n - Ticks(es[1..]), Run(s, es[1..]));
    }
  }

  lemma HeldNow(r: Requestor, i: nat, p: nat)
    requires Shaped(r) && i < |r.chunks| && p < MAX_PEERS && r.downloading[p] == i
    requires r.chunks[i].curProvider == p && !r.chunks[i].finished
    ensures Held(r, i, p, r.chunks[i].lastPacket, r)
  {}

  lemma HeldFields(r: Requestor, i: nat, p: nat, n: int, t: Requestor)
    requires Held(r, i, p, n, t)
    ensures i < |t.chunks| && p < |t.downloading| && t.downloading[p] == i && t.chunks[i].lastPacket == n
    ensures t.chunks[i].curProvider == p && !t.chunks[i].finished
  {}

  lemma StepHolds(r: Requestor, e: Event, i: nat, p: nat)
    requires Inv(r) && Proper(e) && i < |r.chunks|
    requires p < MAX_PEERS && |r.downloading| == MAX_PEERS && r.downloading[p] == i
    requires e.DataEvent? ==> e.peer != p
    requires e.TickEvent? ==> r.chunks[i].lastPacket > 1
    ensures Held(r, i, p, r.chunks[i].lastPacket - (if e.TickEvent? then 1 else 0), Step(r, e))
  {
    hide Inv, Held, UpdateData, AddProvider, Tick;
    StillInProgress(r, i, p);
    match e
    case DataEvent(q, n, payload) => OtherDataHolds(r, q, n, payload, i, p);
    case IHaveEvent(q, hash) => OfferHolds(r, hash, q, i, p);
    case TickEvent => TickHolds(r, i, p);
  }

  /**
   * The n-th tick without data from p, n being the ticks that were to go, releases p and the chunk: after the
   * countdown of that tick neither names the other, and if the chunk is in transfer when the tick is over, it has
   * been asked anew.
   */
  lemma SilentIsReleased(r: Requestor, es: seq<Event>, i: nat, p: nat)
    requires Inv(r) && AllProper(es) && Silent(es, p) && i < |r.chunks| && p < MAX_PEERS && r.downloading[p] == i
    requires Ticks(es) == r.chunks[i].lastPacket - 1
    ensures AllProper(es + [TickEvent])
    ensures var s, t := Run(r, es), Run(r, es + [TickEvent]);
      && s.inProgress && t == Tick(s) && Shaped(s) && i < |s.chunks| == |t.chunks|
      && Shaped(Expire(s, 0)) && |Expire(s, 0).chunks| == |s.chunks|
      && Expire(s, 0).downloading[p] == -1 && Expire(s, 0).chunks[i].curProvider == -1
      && (t.chunks[i].curProvider == -1 || NewlyAsked(Expire(s, 0), i, t))
  {
    hide Inv, Tick, Expire, Run, Held, OnlyAsks, NewlyAsked;
    StillInProgress(r, i, p);
    SilentIsHeld(r, es, i, p);
    var s := Run(r, es);
    HeldFields(r, i, p, 1, s);
    RunAppend(r, es, TickEvent);
    StillInProgress(s, i, p);
    TickLaw(s);
  }

  /**
   * Data that p's chunk takes puts its countdown back to five: a chunk that p serves afterwards has five ticks to go.
   */
  lemma DataRefreshes(r: Requestor, p: nat, n: nat, payload: seq<byte>)
    requires Inv(r) && p < MAX_PEERS && |payload| == PACKET_SIZE && n < BUFFER_LEN && r.downloading[p] != -1
    requires n >= r.chunks[r.downloading[p]].curAck
    ensures var t := UpdateData(r, p, n, payload);
      && p < |t.downloading| && t.downloading[p] < |t.chunks|
      && (t.downloading[p] >= 0 ==> t.chunks[t.downloading[p]].lastPacket == 5)
  {
    hide Concluded, UpdateData, Written, Counted, Distinct, Unfinished, Shaped;
    DataLaw(r, p, n, payload);
    UpdatePrecondition(r, p);
    StillServed(r, p);
    ShapeFacts(r, r.downloading[p]);
    var i, t := r.downloading[p], UpdateData(r, p, n, payload);
    var d :| Stored(r.chunks[i], n, payload, d) && Answered(r, p, i, d, t);
    if d.left == 0 {
      ConclusionRefreshes(r.(chunks := r.chunks[i := d], log := r.log + [Ack(p, d.curAck)]), i, p, t);
    }
  }

  lemma StillServed(r: Requestor, p: nat)
    requires Inv(r) && p < MAX_PEERS
    ensures |r.downloading| == MAX_PEERS && -1 <= r.downloading[p] < |r.chunks|
  {}

  lemma ConclusionRefreshes(u: Requestor, i: nat, p: nat, t: Requestor)
    requires Shaped(u) && i < |u.chunks| && p < |u.downloading| && Concluded(u, i, p, t)
    ensures |t.downloading| == |u.downloading| && t.downloading[p] < |t.chunks|
    ensures t.downloading[p] >= 0 ==> t.chunks[t.downloading[p]].lastPacket == 5
  {
    hide Shaped, Matches, Searched, Within;
    ShapeFacts(u, i);
    if Matches(u.chunks[i].dataBuf, u.chunks[i].hash) {
      var v :| Saved(u, i, p, v) && WentOn(v, t);
      if v.left != 0 {
        var ret :| Searched(v, 0, t, ret);
        SearchRefreshes(v, t, ret, p);
      }
    } else {
      var w :| Dropped(u, i, p, w) && SearchedOnce(w, t);
      var ret :| Searched(w, 0, t, ret);
      SearchRefreshes(w, t, ret, p);
    }
  }

  lemma SearchRefreshes(r: Requestor, t: Requestor, ret: int, p: nat)
    requires Shaped(r) && Searched(r, 0, t, ret) && p < |r.downloading| && r.downloading[p] == -1
    ensures |t.downloading| == |r.downloading| && t.downloading[p] < |t.chunks|
    ensures t.downloading[p] >= 0 ==> t.chunks[t.downloading[p]].lastPacket == 5
  {
    hide Stops;
    if ret == 1 {
      var i :| FirstStop(r, 0, i) && StoppedAt(r, i, t, ret);
      var k :| Asked(r, i, k, t);
    }
  }

  // The start

  lemma InitLaw(hashes: seq<string>, memory: seq<Chunk>)
    requires |memory| == |hashes|
    ensures var r := InitRequestor(hashes, memory);
      && r.inProgress && r.left == |r.chunks| == |r.log| == |hashes| && r.output == map[] && |r.downloading| == 1024
      && (forall p :: 0 <= p < 1024 ==> r.downloading[p] == -1)
      && (forall i :: 0 <= i < |hashes| ==> r.log[i] == WhoHas(i))
      && forall i :: 0 <= i < |hashes| ==>
        var c := r.chunks[i];
        && c.hash == hashes[i] && c.providers == [] && c.curProvider == -1 && !c.finished
        && c.left == |c.recved| == 1024
        && forall k :: 0 <= k < 1024 ==> !c.recved[k]
  {}
}
