/** The incremental SHA-1 of sha.c, refined against the FIPS 180-4 definition in Sha1Spec. */
module Sha1 {
  import opened Common
  import opened Sha1Spec

  // The macros of sha.c. The shift counts are words, as C promotes them.

  function RotateR(x: Word, n: Word): Word
    requires n <= 32
  {
    (x >> n) | (x << (32 - n))
  }

  function F0To19(x: Word, y: Word, z: Word): Word { z ^ (x & (y ^ z)) }

  function F20To39(x: Word, y: Word, z: Word): Word { x ^ y ^ z }

  function F40To59(x: Word, y: Word, z: Word): Word { (x & (y | z)) | (y & z) }

  function F60To79(x: Word, y: Word, z: Word): Word { x ^ y ^ z }

  /** The round function and constant of the g-th group of twenty rounds. */
  function RoundFunction(g: nat, x: Word, y: Word, z: Word): Word
    requires g < 4
  {
    match g
    case 0 => F0To19(x, y, z)
    case 1 => F20To39(x, y, z)
    case 2 => F40To59(x, y, z)
    case _ => F60To79(x, y, z)
  }

  const K_0_19: Word := 0x5a827999
  const K_20_39: Word := 0x6ed9eba1
  const K_40_59: Word := 0x8f1bbcdc
  const K_60_79: Word := 0xca62c1d6

  function RoundConstant(g: nat): Word
    requires g < 4
  {
    match g
    case 0 => K_0_19
    case 1 => K_20_39
    case 2 => K_40_59
    case _ => K_60_79
  }

  /** The rewritten round functions are the ones of FIPS 180-4 section 4.1.1, in every group. */
  lemma RoundFunctionsAgree(g: nat, t: nat, x: Word, y: Word, z: Word)
    requires g < 4 && 20 * g <= t < 20 * g + 20
    ensures RoundFunction(g, x, y, z) == F(t, x, y, z)
  {
    if g == 0 {
      FirstGroupChooses(t, x, y, z);
    } else if g == 2 {
      ThirdGroupTakesMajority(t, x, y, z);
    }
  }

  lemma FirstGroupChooses(t: nat, x: Word, y: Word, z: Word)
    requires t < 20
    ensures RoundFunction(0, x, y, z) == F(t, x, y, z)
  {
    ChoiceByMask(x, y, z);
  }

  lemma ThirdGroupTakesMajority(t: nat, x: Word, y: Word, z: Word)
    requires 40 <= t < 60
    ensures RoundFunction(2, x, y, z) == F(t, x, y, z)
  {
    MajorityByOr(x, y, z);
  }

  lemma RoundConstantsAgree(g: nat, t: nat)
    requires g < 4 && 20 * g <= t < 20 * g + 20
    ensures RoundConstant(g) == K(t)
  {}

  lemma ChoiceByMask(x: Word, y: Word, z: Word)
    ensures z ^ (x & (y ^ z)) == (x & y) ^ (!x & z)
  {}

  lemma MajorityByOr(x: Word, y: Word, z: Word)
    ensures (x & (y | z)) | (y & z) == (x & y) ^ (x & z) ^ (y & z)
  {}

  /** The value DO_ROUND assigns to `temp` in group g, with the next schedule word. */
  function Temp(g: nat, w: Word, v: Hash): Word
    requires g < 4
  {
    Sum(Rotl(5, v.a), RoundFunction(g, v.b, v.c, v.d), v.e, w, RoundConstant(g))
  }

  /** DO_ROUND on the working variables. */
  function DoRound(g: nat, w: Word, v: Hash): Hash
    requires g < 4
  {
    Hash(Temp(g, w, v), v.a, Rotl(30, v.b), v.c, v.d)
  }

  /** One expansion of the macro is the iteration of FIPS 180-4 section 6.1.2 with that number. */
  lemma DoRoundRefines(g: nat, t: nat, w: Word, v: Hash)
    requires g < 4 && 20 * g <= t < 20 * g + 20
    ensures DoRound(g, w, v) == Round(t, w, v)
  {
    hide Temp, T;
    TempRefines(g, t, w, v);
  }

  lemma TempRefines(g: nat, t: nat, w: Word, v: Hash)
    requires g < 4 && 20 * g <= t < 20 * g + 20
    ensures Temp(g, w, v) == T(t, w, v)
  {
    hide RoundFunction, F, K, RoundConstant, Rotl, Sum;
    RoundFunctionsAgree(g, t, v.b, v.c, v.d);
    RoundConstantsAgree(g, t);
    SumInEitherOrder(Rotl(5, v.a), F(t, v.b, v.c, v.d), v.e, w, K(t));
  }

  lemma SumInEitherOrder(r: Word, f: Word, e: Word, w: Word, k: Word)
    ensures Sum(r, f, e, w, k) == Sum(r, f, e, k, w)
  {}

  function SwapBytes(x: Word): Word {
    (RotateR(x, 8) & 0xff00ff00) | (Rotl(8, x) & 0x00ff00ff)
  }

  /** BYTESWAP: a swap on a little-endian machine, nothing on a big-endian one. */
  function ByteSwap(littleEndian: bool, x: Word): Word {
    if littleEndian then SwapBytes(x) else x
  }

  /** The word a machine reads from four consecutive bytes. */
  function LoadWord(littleEndian: bool, a: byte, b: byte, c: byte, d: byte): Word {
    if littleEndian then BigEndian(d, c, b, a) else BigEndian(a, b, c, d)
  }

  /** The four bytes a machine writes for a word. */
  function StoreWord(littleEndian: bool, x: Word): seq<byte> {
    var m := WordBytes(x);
    if littleEndian then [m[3], m[2], m[1], m[0]] else m
  }

  /** Reading a word and swapping it is reading it most significant byte first, on either machine. */
  lemma LoadSwapped(littleEndian: bool, a: byte, b: byte, c: byte, d: byte)
    ensures ByteSwap(littleEndian, LoadWord(littleEndian, a, b, c, d)) == BigEndian(a, b, c, d)
  {
    SwapReverses(a, b, c, d);
  }

  lemma SwapReverses(a: byte, b: byte, c: byte, d: byte)
    ensures SwapBytes(BigEndian(d, c, b, a)) == BigEndian(a, b, c, d)
  {}

  /** Swapping a word and storing it writes it most significant byte first, on either machine. */
  lemma StoreSwapped(littleEndian: bool, x: Word)
    ensures StoreWord(littleEndian, ByteSwap(littleEndian, x)) == WordBytes(x)
  {
    if littleEndian {
      var y := SwapBytes(x);
      SwappedBytes0(x);
      SwappedBytes1(x);
      SwappedBytes2(x);
      SwappedBytes3(x);
      assert WordBytes(y)[3] == WordBytes(x)[0] && WordBytes(y)[2] == WordBytes(x)[1];
      assert WordBytes(y)[1] == WordBytes(x)[2] && WordBytes(y)[0] == WordBytes(x)[3];
    }
  }

  lemma SwappedBytes0(x: Word)
    ensures (SwapBytes(x) & 0xff) == (x >> 24) & 0xff
  {}

  lemma SwappedBytes1(x: Word)
    ensures (SwapBytes(x) >> 8) & 0xff == (x >> 16) & 0xff
  {}

  lemma SwappedBytes2(x: Word)
    ensures (SwapBytes(x) >> 16) & 0xff == (x >> 8) & 0xff
  {}

  lemma SwappedBytes3(x: Word)
    ensures (SwapBytes(x) >> 24) & 0xff == x & 0xff
  {}

  /** The eight bytes in memory of BYTESWAP64(x), for x made of the words `high` and `low`: they change places. */
  function StoredSwapped64(littleEndian: bool, high: Word, low: Word): seq<byte> {
    if littleEndian then
      StoreWord(true, ByteSwap(true, high)) + StoreWord(true, ByteSwap(true, low))
    else
      StoreWord(false, high) + StoreWord(false, low)
  }

  /** Whichever machine, the eight bytes written have the most significant byte first. */
  lemma StoredLengthIsField(littleEndian: bool, high: Word, low: Word)
    ensures StoredSwapped64(littleEndian, high, low) == WordBytes(high) + WordBytes(low)
  {
    StoreSwapped(littleEndian, high);
    StoreSwapped(littleEndian, low);
  }

  /** The part of the input already folded into the hash, and the part waiting in the buffer. */
  function Whole(m: seq<byte>): (r: seq<byte>)
    ensures |r| % 64 == 0
  {
    m[..|m| - |m| % 64]
  }

  function Rest(m: seq<byte>): (r: seq<byte>)
    ensures |r| == |m| % 64
  {
    m[|m| - |m| % 64..]
  }

  /** Input that does not fill the buffer stays in it; input that fills it is folded as one block. */
  lemma Absorb(m: seq<byte>, d: seq<byte>)
    requires |Rest(m)| + |d| <= 64
    ensures |Rest(m)| + |d| < 64 ==> Whole(m + d) == Whole(m) && Rest(m + d) == Rest(m) + d
    ensures |Rest(m)| + |d| == 64 ==>
      Rest(m + d) == [] && Fold(H0, Whole(m + d)) == Compress(Fold(H0, Whole(m)), Rest(m) + d)
  {
    var w := |m| - |m| % 64;
    assert m == m[..w] + Rest(m);
    if |Rest(m)| + |d| == 64 {
      var block := Rest(m) + d;
      assert Whole(m + d) == m + d == Whole(m) + block;
      FoldConcat(H0, Whole(m), block);
      assert block[..64] == block && block[64..] == [];
      assert Fold(Fold(H0, Whole(m)), block) == Compress(Fold(H0, Whole(m)), block);
    } else {
      assert |m + d| % 64 == |Rest(m)| + |d|;
    }
  }

  /** A whole block after whole blocks is folded as it is, and leaves nothing over. */
  lemma WholeBlock(m: seq<byte>, block: seq<byte>)
    requires |m| % 64 == 0 && |block| == 64
    ensures Rest(m + block) == [] && Fold(H0, Whole(m + block)) == Compress(Fold(H0, Whole(m)), block)
    ensures |m + block| % 64 == 0
  {
    hide Fold, Compress;
    assert Rest(m) + block == block;
    Absorb(m, block);
  }

  lemma PeelOne(i: int, u: nat)
    requires i > 0
    ensures i * u == (i - 1) * u + u && (i - 1) * u >= 0
  {}

  /** Counting bits modulo 2^64 piece by piece counts them all. */
  lemma BitsAdd(m: nat, n: nat)
    ensures (8 * m % TWO_TO_64 + n * 8) % TWO_TO_64 == 8 * (m + n) % TWO_TO_64
  {}

  lemma ScheduleStart(block: seq<byte>, t: nat)
    requires |block| == 64 && t < 16
    ensures Schedule(block, t) == BigEndian(block[4 * t], block[4 * t + 1], block[4 * t + 2], block[4 * t + 3])
  {}

  lemma ScheduleStep(block: seq<byte>, t: nat)
    requires |block| == 64 && t >= 16
    ensures Schedule(block, t) ==
      Rotl(1, Xor(Schedule(block, t - 3), Schedule(block, t - 8), Schedule(block, t - 14), Schedule(block, t - 16)))
  {}

  /** The values of SHA1_UNROLL that the source accepts. */
  predicate Unrolls(unroll: nat) {
    unroll in {1, 2, 4, 5, 10, 20}
  }

  const PADDING: seq<byte> := [0x80] + Zeros(63)

  class Sha1Context {
    var totalLength: nat
    const hash: array<Word>
    var bufferLength: nat
    const buffer: array<byte>
    const littleEndian: bool

    /** SHA1_UNROLL: how many rounds are written out per turn of a loop. */
    const unroll: nat

    /** Everything passed to Update so far. */
    ghost var absorbed: seq<byte>

    ghost predicate Valid()
      reads this, hash, buffer
    {
      && hash.Length == 5
      && buffer.Length == 64
      && Unrolls(unroll)
      && totalLength == 8 * |absorbed| % TWO_TO_64
      && bufferLength == |absorbed| % 64
      && buffer[..bufferLength] == Rest(absorbed)
      && HashValue() == Fold(H0, Whole(absorbed))
    }

    ghost function HashValue(): Hash
      requires hash.Length == 5
      reads hash
    {
      Hash(hash[0], hash[1], hash[2], hash[3], hash[4])
    }

    constructor (littleEndian: bool, unroll: nat)
      requires Unrolls(unroll)
      ensures Valid() && fresh(hash) && fresh(buffer)
      ensures absorbed == []
    {
      this.littleEndian, this.unroll := littleEndian, unroll;
      totalLength := 0;
      var h := new Word[5];
      h[0] := 0x67452301;
      h[1] := 0xefcdab89;
      h[2] := 0x98badcfe;
      h[3] := 0x10325476;
      h[4] := 0xc3d2e1f0;
      hash := h;
      bufferLength := 0;
      buffer := new byte[64];
      absorbed := [];
    }

    method Guts(cbuf: seq<byte>)
      requires hash.Length == 5 && |cbuf| == 64 && Unrolls(unroll)
      modifies hash
      ensures HashValue() == Compress(old(HashValue()), cbuf)
    {
      hide Rounds, Plus;
      var buf := ExpandSchedule(cbuf);
      var v := DoRounds(cbuf, buf[..], Hash(hash[0], hash[1], hash[2], hash[3], hash[4]));

      hash[0] := Plus(hash[0], v.a);
      hash[1] := Plus(hash[1], v.b);
      hash[2] := Plus(hash[2], v.c);
      hash[3] := Plus(hash[3], v.d);
      hash[4] := Plus(hash[4], v.e);
    }

    /** The eighty rounds: four groups of twenty, `unroll` of them written out per turn of each group's loop. */
    method DoRounds(ghost cbuf: seq<byte>, buf: seq<Word>, h: Hash) returns (v: Hash)
      requires |cbuf| == 64 && |buf| == 80
      requires forall t :: 0 <= t < 80 ==> buf[t] == Schedule(cbuf, t)
      requires Unrolls(unroll)
      ensures v == Rounds(cbuf, ROUNDS, h)
    {
      hide Round, DoRound, Schedule;
      v := h;
      var w := 0;
      for g := 0 to 4
        invariant w == 20 * g
        invariant v == Rounds(cbuf, w, h)
      {
        var i := 20 / unroll;
        assert i * unroll == 20;
        while i > 0
          invariant i >= 0 && w + i * unroll == 20 * g + 20
          invariant v == Rounds(cbuf, w, h)
        {
          PeelOne(i, unroll);
          for k := 0 to unroll
            invariant w + (i - 1) * unroll + unroll == 20 * g + 20 + k
            invariant v == Rounds(cbuf, w, h)
          {
            DoRoundRefines(g, w, buf[w], v);
            v := DoRound(g, buf[w], v);
            w := w + 1;
          }
          i := i - 1;
        }
      }
    }

    /** The message schedule, filled through the four moving read pointers. */
    method ExpandSchedule(cbuf: seq<byte>) returns (buf: array<Word>)
      requires |cbuf| == 64
      ensures fresh(buf) && buf.Length == 80
      ensures forall t :: 0 <= t < 80 ==> buf[t] == Schedule(cbuf, t)
    {
      hide LoadWord, ByteSwap, BigEndian, Rotl, Xor, Schedule;
      buf := new Word[80];
      var w := 0;
      while w < 16
        invariant 0 <= w <= 16
        invariant forall t :: 0 <= t < w ==> buf[t] == Schedule(cbuf, t)
      {
        ScheduleStart(cbuf, w);
        LoadSwapped(littleEndian, cbuf[4 * w], cbuf[4 * w + 1], cbuf[4 * w + 2], cbuf[4 * w + 3]);
        var word := LoadWord(littleEndian, cbuf[4 * w], cbuf[4 * w + 1], cbuf[4 * w + 2], cbuf[4 * w + 3]);
        buf[w] := ByteSwap(littleEndian, word);
        w := w + 1;
      }

      var w16, w14, w8, w3 := 0, 2, 8, 13;
      while w < 80
        invariant 16 <= w <= 80
        invariant w16 == w - 16 && w14 == w - 14 && w8 == w - 8 && w3 == w - 3
        invariant forall t :: 0 <= t < w ==> buf[t] == Schedule(cbuf, t)
      {
        ScheduleStep(cbuf, w);
        buf[w] := Xor(buf[w3], buf[w8], buf[w14], buf[w16]);
        w3, w8, w14, w16 := w3 + 1, w8 + 1, w14 + 1, w16 + 1;
        buf[w] := Rotl(1, buf[w]);
        w := w + 1;
      }
    }

    /** SHA1Update without SHA1_FAST_COPY: everything goes through the buffer. */
    method Update(input: seq<byte>)
      requires Valid() && |input| < TWO_TO_32
      modifies this, hash, buffer
      ensures Valid() && absorbed == old(absorbed) + input
    {
      hide Compress, Fold, Whole, Rest;
      var data := input;
      while data != []
        invariant Valid()
        invariant absorbed + data == old(absorbed) + input
        decreases |data|
      {
        var bytesToCopy := Fill(data);
        data := data[bytesToCopy..];
      }
    }

    /** SHA1Update with SHA1_FAST_COPY: only a partial first block and the tail go through the buffer. */
    method UpdateFastCopy(input: seq<byte>)
      requires Valid() && |input| < TWO_TO_32
      modifies this, hash, buffer
      ensures Valid() && absorbed == old(absorbed) + input
    {
      hide Compress, Fold, Whole, Rest;
      var data := input;
      if bufferLength != 0 {
        var bytesToCopy := Fill(data);
        data := data[bytesToCopy..];
      }
      while |data| > 63
        invariant Valid()
        invariant absorbed + data == old(absorbed) + input
        invariant data == [] || bufferLength == 0
        decreases |data|
      {
        FoldDirect(data[..64]);
        data := data[64..];
      }
      if data != [] {
        Absorb(absorbed, data);
        CopyIn(data);
      }
    }

    /** A block folded straight from the input. */
    method FoldDirect(block: seq<byte>)
      requires Valid() && bufferLength == 0 && |block| == 64
      modifies this, hash
      ensures Valid() && bufferLength == 0
      ensures absorbed == old(absorbed) + block
    {
      hide Compress, Fold, Whole, Rest;
      totalLength := (totalLength + 512) % TWO_TO_64;
      Guts(block);
      WholeBlock(absorbed, block);
      absorbed := absorbed + block;
      BitsAdd(|old(absorbed)|, 64);
    }

    /** memcpy into the free part of the buffer. */
    method CopyIn(data: seq<byte>)
      requires Valid()
      requires bufferLength + |data| <= 64
      modifies this, buffer
      ensures unchanged(hash)
      ensures absorbed == old(absorbed) + data
      ensures bufferLength == old(bufferLength) + |data|
      ensures totalLength == 8 * |absorbed| % TWO_TO_64
      ensures buffer[..bufferLength] == Rest(old(absorbed)) + data
    {
      hide Compress, Fold, Whole, Rest;
      CopyBytes(data);
      totalLength := (totalLength + |data| * 8) % TWO_TO_64;
      BitsAdd(|absorbed|, |data|);
      bufferLength := bufferLength + |data|;
      absorbed := absorbed + data;
    }

    method CopyBytes(data: seq<byte>)
      requires buffer.Length == 64 && bufferLength + |data| <= 64
      modifies buffer
      ensures buffer[..bufferLength + |data|] == old(buffer[..bufferLength]) + data
    {
      forall i | 0 <= i < |data| {
        buffer[bufferLength + i] := data[i];
      }
    }

    /** One turn of the plain loop: copy what fits, and fold the buffer when it is full. */
    method Fill(data: seq<byte>) returns (bytesToCopy: nat)
      requires Valid()
      modifies this, hash, buffer
      ensures Valid()
      ensures bytesToCopy <= |data| && (data != [] ==> bytesToCopy > 0)
      ensures absorbed == old(absorbed) + data[..bytesToCopy]
      ensures bufferLength == 0 || bytesToCopy == |data|
    {
      hide Compress, Fold;
      bytesToCopy := 64 - bufferLength;
      if bytesToCopy > |data| {
        bytesToCopy := |data|;
      }
      Absorb(absorbed, data[..bytesToCopy]);
      CopyIn(data[..bytesToCopy]);
      if bufferLength == 64 {
        assert buffer[..] == buffer[..64];
        Guts(buffer[..]);
        bufferLength := 0;
      }
    }

    /** The first half of SHA1Final: the length is captured before the padding is counted. */
    method AppendPadding(fastCopy: bool)
      requires Valid()
      modifies this, hash, buffer
      ensures Valid() && absorbed == Pad(old(absorbed))
    {
      hide Compress, Fold, WordBytes;
      ghost var n := |absorbed|;
      var bytesToPad := 120 - bufferLength;
      if bytesToPad > 64 {
        bytesToPad := bytesToPad - 64;
      }
      var lengthPad := StoredSwapped64(littleEndian, WordOf(totalLength / TWO_TO_32), WordOf(totalLength));
      StoredLengthIsField(littleEndian, WordOf(totalLength / TWO_TO_32), WordOf(totalLength));
      assert PADDING[..bytesToPad] == Filler(n);
      if fastCopy {
        UpdateFastCopy(PADDING[..bytesToPad]);
        UpdateFastCopy(lengthPad);
      } else {
        Update(PADDING[..bytesToPad]);
        Update(lengthPad);
      }
    }

    method Final(fastCopy: bool) returns (digest: seq<byte>)
      requires Valid()
      modifies this, hash, buffer
      ensures digest == Digest(old(absorbed))
    {
      hide Compress, Fold, WordBytes, StoreWord, ByteSwap;
      ghost var m := absorbed;
      AppendPadding(fastCopy);
      PadFillsBlocks(m);
      assert Whole(Pad(m)) == Pad(m);

      digest := [];
      var words := hash[..];
      for i := 0 to 5
        invariant hash[..] == words
        invariant digest == AllBytes(words[..i])
      {
        assert words[..i + 1][..i] == words[..i];
        if fastCopy {
          StoreSwapped(littleEndian, hash[i]);
          digest := digest + StoreWord(littleEndian, ByteSwap(littleEndian, hash[i]));
        } else {
          digest := digest + WordBytes(hash[i]);
        }
      }
      assert words[..5] == [hash[0], hash[1], hash[2], hash[3], hash[4]];
    }
  }

  /** What a sequence of pieces says, read one after the other. */
  function Concat(pieces: seq<seq<byte>>): seq<byte> {
    if pieces == [] then [] else Concat(pieces[..|pieces| - 1]) + pieces[|pieces| - 1]
  }

  /** Init, any number of updates of any sizes under any build, Final: the digest of the concatenation. */
  method DigestOfPieces(pieces: seq<seq<byte>>, fastCopy: bool, littleEndian: bool, unroll: nat)
    returns (digest: seq<byte>)
    requires Unrolls(unroll)
    requires forall i :: 0 <= i < |pieces| ==> |pieces[i]| < TWO_TO_32
    ensures digest == Digest(Concat(pieces))
  {
    hide Digest, Fold, Compress;
    var sc := new Sha1Context(littleEndian, unroll);
    for i := 0 to |pieces|
      invariant fresh(sc) && fresh(sc.hash) && fresh(sc.buffer) && sc.Valid()
      invariant sc.absorbed == Concat(pieces[..i])
    {
      assert pieces[..i + 1][..i] == pieces[..i];
      if fastCopy {
        sc.UpdateFastCopy(pieces[i]);
      } else {
        sc.Update(pieces[i]);
      }
    }
    assert pieces[..|pieces|] == pieces;
    digest := sc.Final(fastCopy);
  }

  /** shahash of chunk.c. */
  method ShaHash(str: seq<byte>) returns (hash: seq<byte>)
    requires |str| < TWO_TO_32
    ensures hash == Digest(str)
  {
    var sha := new Sha1Context(true, 20);
    sha.Update(str);
    assert [] + str == str;
    hash := sha.Final(false);
  }
}
