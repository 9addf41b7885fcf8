/** How the requestor chooses providers, and what its retry loop leaves unassigned. */
module Scheduling {
  import opened Common
  import opened RequestorSpec
  import opened RequestorProofs

  // The choice

  ghost predicate Busy(c: Chunk, downloading: seq<int>, k: nat)
    requires |downloading| == MAX_PEERS && InRange(c.providers) && k < |c.providers|
  {
    downloading[c.providers[k]] != -1
  }

  /** The m-th list position after the last provider, in cyclic order. */
  function After(c: Chunk, m: nat): (k: nat)
    requires c.providers != []
    ensures k < |c.providers|
  {
    (c.lastProvider + m) % |c.providers|
  }

  lemma AfterNext(c: Chunk, m: nat)
    requires c.providers != []
    ensures Following(After(c, m), |c.providers|) == After(c, m + 1)
  {
    ModPlusOne(c.lastProvider + m, |c.providers|);
  }

  lemma ModPlusOne(x: nat, n: nat)
    requires n > 0
    ensures (x % n + 1) % n == (x + 1) % n
  {
    var q, r := x / n, x % n;
    assert x + 1 == q * n + (r + 1);
    ModAdd(q, r + 1, n);
  }

  /** Adding multiples of n does not change the remainder. */
  lemma ModAdd(q: int, y: int, n: nat)
    requires n > 0
    ensures (q * n + y) % n == y % n
  {
    var a, b := (q * n + y) / n, y / n;
    assert (a - q - b) * n == a * n - q * n - b * n;
    Multiple(a - q - b, n);
  }

  lemma Multiple(d: int, n: nat)
    requires n > 0
    ensures d >= 1 ==> d * n >= n
    ensures d <= -1 ==> d * n <= -(n as int)
  {
    if d >= 1 {
      assert (d - 1) * n >= 0;
    } else if d <= -1 {
      assert (-d - 1) * n >= 0;
    }
  }

  /** From the (j+1)-th position after the last provider on, the first free one is found, or all are busy. */
  lemma {:induction false} NextFreeIsFirst(c: Chunk, downloading: seq<int>, j: nat)
    requires |downloading| == MAX_PEERS && InRange(c.providers) && c.providers != [] && j <= |c.providers|
    ensures match NextFree(c, downloading, After(c, j + 1), j)
      case None => forall m :: j < m <= |c.providers| ==> Busy(c, downloading, After(c, m))
      case Some(k) => exists m :: j < m <= |c.providers| && k == After(c, m) && !Busy(c, downloading, k)
                        && forall l :: j < l < m ==> Busy(c, downloading, After(c, l))
    decreases |c.providers| - j
  {
    hide After, Following;
    if j < |c.providers| && Busy(c, downloading, After(c, j + 1)) {
      AfterNext(c, j + 1);
      NextFreeIsFirst(c, downloading, j + 1);
    }
  }

  /**
   * The pick is the first free provider after the last one, in cyclic order; none is picked only if all are busy.
   * The last provider itself comes last: it is picked again only if every other one is busy.
   */
  lemma PickIsFirstFree(c: Chunk, downloading: seq<int>)
    requires |downloading| == MAX_PEERS && InRange(c.providers) && c.providers != []
    ensures match Pick(c, downloading)
      case None => forall k :: 0 <= k < |c.providers| ==> Busy(c, downloading, k)
      case Some(k) =>
        && (exists m :: 1 <= m <= |c.providers| && k == After(c, m) && !Busy(c, downloading, k)
             && forall l :: 1 <= l < m ==> Busy(c, downloading, After(c, l)))
        && (k == c.lastProvider ==> forall l :: 0 <= l < |c.providers| && l != k ==> Busy(c, downloading, l))
  {
    NextFreeIsFirst(c, downloading, 0);
    match Pick(c, downloading)
    case None =>
      forall k | 0 <= k < |c.providers| ensures Busy(c, downloading, k) {
        var m := EveryPositionComes(c, k);
      }
    case Some(k) =>
      var m :| 1 <= m <= |c.providers| && k == After(c, m)
        && forall l :: 1 <= l < m ==> Busy(c, downloading, After(c, l));
      if k == c.lastProvider {
        AfterInjective(c, m, |c.providers|);
        AfterRound(c);
        forall l | 0 <= l < |c.providers| && l != k ensures Busy(c, downloading, l) {
          var h := EveryPositionComes(c, l);
        }
      }
  }

  /** Every list position is reached within one round. */
  lemma EveryPositionComes(c: Chunk, k: nat) returns (m: nat)
    requires k < |c.providers|
    ensures 1 <= m <= |c.providers| && After(c, m) == k
  {
    m := TurnsTo(c.lastProvider, k, |c.providers|);
  }

  lemma TurnsTo(last: nat, k: nat, n: nat) returns (m: nat)
    requires k < n
    ensures 1 <= m <= n && (last + m) % n == k
  {
    var q, r := last / n, last % n;
    assert last == q * n + r;
    m := if k > r then k - r else k - r + n;
    ModAdd(q, r + m, n);
    assert last + m == q * n + (r + m);
    WithinTwo(k, n);
  }

  lemma WithinTwo(k: nat, n: nat)
    requires k < n
    ensures k % n == k && (k + n) % n == k
  {}

  /** A full round comes back to the last provider. */
  lemma AfterRound(c: Chunk)
    requires c.providers != []
    ensures c.lastProvider < |c.providers| ==> After(c, |c.providers|) == c.lastProvider
  {
    ModAdd(1, c.lastProvider, |c.providers|);
  }

  /** Within one round no position comes twice. */
  lemma AfterInjective(c: Chunk, l: nat, m: nat)
    requires c.providers != [] && 1 <= l <= |c.providers| && 1 <= m <= |c.providers|
    ensures After(c, l) == After(c, m) ==> l == m
  {
    RemainderInjective(c.lastProvider, l, m, |c.providers|);
  }

  lemma RemainderInjective(last: nat, l: nat, m: nat, n: nat)
    requires 1 <= l <= n && 1 <= m <= n
    ensures (last + l) % n == (last + m) % n ==> l == m
  {
    var a, b, r := (last + l) / n, (last + m) / n, (last + l) % n;
    if r == (last + m) % n {
      assert last + l == a * n + r;
      assert last + m == b * n + r;
      Apart(l - m, a, b, n);
    }
  }

  /** Two multiples of n that are less than n apart are the same. */
  lemma Apart(d: int, a: int, b: int, n: nat)
    requires d == a * n - b * n && -(n as int) < d < n
    ensures d == 0
  {
    assert (a - b) * n == a * n - b * n;
    Multiple(a - b, n);
  }

  /** The chunk after m picks that all found every provider free. */
  function Picked(c: Chunk, downloading: seq<int>, m: nat): (d: Chunk)
    requires |downloading| == MAX_PEERS && InRange(c.providers) && c.providers != []
    ensures d.providers == c.providers
  {
    if m == 0 then c
    else
      var d := Picked(c, downloading, m - 1);
      match Pick(d, downloading)
      case None => d
      case Some(k) => d.(lastProvider := k)
  }

  /** While all providers are free, n picks in a row visit each of the n providers exactly once. */
  lemma {:induction false} PicksTakeTurns(c: Chunk, downloading: seq<int>, m: nat)
    requires |downloading| == MAX_PEERS && InRange(c.providers) && c.providers != []
    requires forall k :: 0 <= k < |c.providers| ==> !Busy(c, downloading, k)
    ensures m > 0 ==> Picked(c, downloading, m).lastProvider == After(c, m)
  {
    if m > 0 {
      PicksTakeTurns(c, downloading, m - 1);
      var d := Picked(c, downloading, m - 1);
      assert !Busy(c, downloading, Following(d.lastProvider, |c.providers|));
      assert Pick(d, downloading) == Some(Following(d.lastProvider, |c.providers|));
      if m > 1 {
        AfterNext(c, m - 1);
      }
    }
  }

  /** One of the next n picks chooses list position k. */
  ghost predicate Visits(c: Chunk, downloading: seq<int>, k: nat)
    requires |downloading| == MAX_PEERS && InRange(c.providers) && c.providers != []
  {
    exists m :: 1 <= m <= |c.providers| && Picked(c, downloading, m).lastProvider == k
  }

  lemma RoundVisitsAll(c: Chunk, downloading: seq<int>)
    requires |downloading| == MAX_PEERS && InRange(c.providers) && c.providers != []
    requires forall k :: 0 <= k < |c.providers| ==> !Busy(c, downloading, k)
    ensures forall k :: 0 <= k < |c.providers| ==> Visits(c, downloading, k)
    ensures forall l, m :: 1 <= l < m <= |c.providers| ==>
      Picked(c, downloading, l).lastProvider != Picked(c, downloading, m).lastProvider
  {
    forall k | 0 <= k < |c.providers| ensures Visits(c, downloading, k) {
      var m := EveryPositionComes(c, k);
      PicksTakeTurns(c, downloading, m);
    }
    forall l, m | 1 <= l < m <= |c.providers|
      ensures Picked(c, downloading, l).lastProvider != Picked(c, downloading, m).lastProvider
    {
      PicksTakeTurns(c, downloading, l);
      PicksTakeTurns(c, downloading, m);
      AfterInjective(c, l, m);
    }
  }

  // The provider lists

  /** A list of distinct peers is never longer than the array it is kept in. */
  lemma ProvidersFit(r: Requestor, i: nat)
    requires Inv(r) && i < |r.chunks|
    ensures |r.chunks[i].providers| <= MAX_PEERS
  {
    DistinctBelow(r.chunks[i].providers, MAX_PEERS);
  }

  lemma {:induction false} DistinctBelow(s: seq<nat>, n: nat)
    requires Distinct(s) && forall k :: 0 <= k < |s| ==> s[k] < n
    ensures |s| <= n
    decreases n
  {
    if s != [] {
      assert s[0] < n;
      if k :| 0 <= k < |s| && s[k] == n - 1 {
        DistinctBelow(s[..k] + s[k + 1..], n - 1);
      } else {
        DistinctBelow(s, n - 1);
      }
    }
  }

  // The retry loop

  ghost predicate AllBusy(c: Chunk, downloading: seq<int>)
    requires |downloading| == MAX_PEERS && InRange(c.providers)
  {
    forall k :: 0 <= k < |c.providers| ==> Busy(c, downloading, k)
  }

  /** The first waiting chunk from i on that nobody is known to have. */
  function FirstOrphan(chunks: seq<Chunk>, i: nat): (o: nat)
    ensures i <= |chunks| ==> i <= o <= |chunks|
    decreases |chunks| - i
  {
    if i >= |chunks| then i
    else if Waiting(chunks[i]) && chunks[i].providers == [] then i
    else FirstOrphan(chunks, i + 1)
  }

  /** When request_next_chunk assigns nothing, no waiting chunk before the first orphan has a free provider. */
  lemma {:induction false} NothingToAssign(r: Requestor, i: nat)
    requires Shaped(r) && i <= |r.chunks| && RequestNext(r, i).1 != 1
    ensures forall k :: i <= k < FirstOrphan(r.chunks, i) && Waiting(r.chunks[k]) ==>
      AllBusy(r.chunks[k], r.downloading)
    ensures RequestNext(r, i).1 == if FirstOrphan(r.chunks, i) < |r.chunks| then -1 else 0
    decreases |r.chunks| - i
  {
    hide Assign, Pick, Busy;
    if i < |r.chunks| {
      if Waiting(r.chunks[i]) && r.chunks[i].providers != [] {
        PickIsFirstFree(r.chunks[i], r.downloading);
      }
      if !(Waiting(r.chunks[i]) && r.chunks[i].providers == []) {
        NothingToAssign(r, i + 1);
      }
    }
  }

  ghost predicate Maximal(r: Requestor)
    requires Shaped(r)
  {
    forall k :: 0 <= k < FirstOrphan(r.chunks, 0) && Waiting(r.chunks[k]) ==> AllBusy(r.chunks[k], r.downloading)
  }

  /** The retry loop ends, and leaves a maximal assignment. */
  lemma {:induction false} RetryAllIsMaximal(r: Requestor)
    requires Shaped(r)
    ensures Shaped(RetryAll(r)) && Maximal(RetryAll(r))
    decreases WaitingCount(r.chunks, 0)
  {
    hide RequestNext, AllBusy;
    RequestNextAssigns(r, 0);
    if RequestNext(r, 0).1 == 1 {
      RetryAllIsMaximal(RequestNext(r, 0).0);
    } else {
      NothingToAssign(r, 0);
    }
  }

  /** Every tick of a running download ends in a maximal assignment. */
  lemma TickIsMaximal(r: Requestor)
    requires Inv(r) && r.inProgress
    ensures Shaped(Tick(r)) && Maximal(Tick(r))
  {
    ExpireShape(r, 0);
    RetryAllIsMaximal(Expire(r, 0));
  }
}
