/** The SHA-1 digest as FIPS 180-4 defines it: pad, split into blocks, fold the compression function. */
module Sha1Spec {
  import opened Common

  type Word = bv32

  /** The five working variables, or a hash value (sections 5.3.1 and 6.1.2). */
  datatype Hash = Hash(a: Word, b: Word, c: Word, d: Word, e: Word)

  const H0 := Hash(0x67452301, 0xefcdab89, 0x98badcfe, 0x10325476, 0xc3d2e1f0)

  /** Section 3.2, rotate left. */
  function Rotl(n: Word, x: Word): Word
    requires n < 32
  {
    (x << n) | (x >> (32 - n))
  }

  // Addition modulo 2^32 and exclusive or (section 3.2)

  function Plus(x: Word, y: Word): Word { x + y }

  function Sum(v: Word, w: Word, x: Word, y: Word, z: Word): Word { v + w + x + y + z }

  function Xor(w: Word, x: Word, y: Word, z: Word): Word { w ^ x ^ y ^ z }

  // Section 4.1.1

  function Ch(x: Word, y: Word, z: Word): Word { (x & y) ^ (!x & z) }

  function Parity(x: Word, y: Word, z: Word): Word { x ^ y ^ z }

  function Maj(x: Word, y: Word, z: Word): Word { (x & y) ^ (x & z) ^ (y & z) }

  function F(t: nat, x: Word, y: Word, z: Word): Word {
    if t < 20 then Ch(x, y, z)
    else if t < 40 then Parity(x, y, z)
    else if t < 60 then Maj(x, y, z)
    else Parity(x, y, z)
  }

  const ROUNDS: nat := 80

  // Section 4.2.1
  function K(t: nat): Word {
    if t < 20 then 0x5a827999
    else if t < 40 then 0x6ed9eba1
    else if t < 60 then 0x8f1bbcdc
    else 0xca62c1d6
  }

  /** Four bytes as a word, most significant byte first (section 3.1). */
  function BigEndian(a: byte, b: byte, c: byte, d: byte): Word {
    ((a as Word) << 24) | ((b as Word) << 16) | ((c as Word) << 8) | (d as Word)
  }

  function WordBytes(w: Word): (r: seq<byte>)
    ensures |r| == 4
  {
    [((w >> 24) & 0xff) as byte, ((w >> 16) & 0xff) as byte, ((w >> 8) & 0xff) as byte, (w & 0xff) as byte]
  }

  /** W_t of section 6.1.2, step 1. */
  function Schedule(block: seq<byte>, t: nat): Word
    requires |block| == 64
  {
    if t < 16 then
      BigEndian(block[4 * t], block[4 * t + 1], block[4 * t + 2], block[4 * t + 3])
    else
      Rotl(1, Xor(Schedule(block, t - 3), Schedule(block, t - 8), Schedule(block, t - 14), Schedule(block, t - 16)))
  }

  /** T of section 6.1.2, step 3. */
  function T(t: nat, w: Word, v: Hash): Word {
    Sum(Rotl(5, v.a), F(t, v.b, v.c, v.d), v.e, K(t), w)
  }

  /** One iteration of section 6.1.2, step 3. */
  function Round(t: nat, w: Word, v: Hash): Hash {
    Hash(T(t, w, v), v.a, Rotl(30, v.b), v.c, v.d)
  }

  /** The working variables after the first `t` iterations. */
  function Rounds(block: seq<byte>, t: nat, v: Hash): Hash
    requires |block| == 64
  {
    if t == 0 then v else Round(t - 1, Schedule(block, t - 1), Rounds(block, t - 1, v))
  }

  function Compress(h: Hash, block: seq<byte>): Hash
    requires |block| == 64
  {
    Add(h, Rounds(block, ROUNDS, h))
  }

  function Add(h: Hash, v: Hash): Hash {
    Hash(Plus(h.a, v.a), Plus(h.b, v.b), Plus(h.c, v.c), Plus(h.d, v.d), Plus(h.e, v.e))
  }

  /** The hash value after all blocks of `data`. */
  function Fold(h: Hash, data: seq<byte>): Hash
    requires |data| % 64 == 0
    decreases |data|
  {
    if data == [] then h else Fold(Compress(h, data[..64]), data[64..])
  }

  function Zeros(n: nat): (r: seq<byte>)
    ensures |r| == n
    ensures forall i :: 0 <= i < n ==> r[i] == 0
  {
    seq(n, _ => 0)
  }

  /** The "1" bit and the least number of "0" bits that bring the length to 448 modulo 512 (section 5.1.1). */
  function Filler(n: nat): seq<byte> {
    [0x80] + Zeros((119 - n % 64) % 64)
  }

  /** x modulo 2^32 as a word: the word counted up to from zero. */
  function WordOf(x: nat): Word {
    if x == 0 then 0 else WordOf(x - 1) + 1
  }

  /** The 64-bit block holding the bit length of an n-byte message, high word first (section 5.1.1). */
  function LengthField(n: nat): (r: seq<byte>)
    ensures |r| == 8
  {
    var bits := 8 * n % TWO_TO_64;
    WordBytes(WordOf(bits / TWO_TO_32)) + WordBytes(WordOf(bits))
  }

  function Pad(m: seq<byte>): seq<byte> {
    m + Filler(|m|) + LengthField(|m|)
  }

  /** The bytes of all words, in order. */
  function AllBytes(words: seq<Word>): (r: seq<byte>)
    ensures |r| == 4 * |words|
  {
    if words == [] then [] else AllBytes(words[..|words| - 1]) + WordBytes(words[|words| - 1])
  }

  function HashBytes(h: Hash): (r: seq<byte>)
    ensures |r| == 20
  {
    AllBytes([h.a, h.b, h.c, h.d, h.e])
  }

  function Digest(m: seq<byte>): (r: seq<byte>)
    ensures |r| == 20
  {
    PadFillsBlocks(m);
    HashBytes(Fold(H0, Pad(m)))
  }

  lemma PadFillsBlocks(m: seq<byte>)
    ensures |Pad(m)| % 64 == 0
    ensures 1 <= |Filler(|m|)| <= 64
    ensures (|m| + |Filler(|m|)|) % 64 == 56
  {
    hide LengthField, Zeros;
    var r := |m| % 64;
    assert |Filler(|m|)| == 1 + (119 - r) % 64;
  }

  /** Folding two runs of whole blocks one after the other folds their concatenation. */
  lemma {:induction false} FoldConcat(h: Hash, x: seq<byte>, y: seq<byte>)
    requires |x| % 64 == 0 && |y| % 64 == 0
    ensures |x + y| % 64 == 0
    ensures Fold(h, x + y) == Fold(Fold(h, x), y)
    decreases |x|
  {
    hide Compress;
    if x == [] {
      assert x + y == y;
    } else {
      assert (x + y)[..64] == x[..64];
      assert (x + y)[64..] == x[64..] + y;
      FoldConcat(Compress(h, x[..64]), x[64..], y);
    }
  }

  /** The padded stream determines the message, whatever the length field says. */
  lemma PadInjective(m: seq<byte>, n: seq<byte>)
    requires Pad(m) == Pad(n)
    ensures m == n
  {
    if |m| < |n| {
      PadNotLonger(m, n);
    } else if |n| < |m| {
      PadNotLonger(n, m);
    } else {
      assert Pad(m)[..|m|] == m;
      assert Pad(n)[..|n|] == n;
    }
  }

  lemma PadNotLonger(m: seq<byte>, n: seq<byte>)
    requires |m| < |n|
    ensures Pad(m) != Pad(n)
  {
    if |Pad(m)| == |Pad(n)| {
      PadFillsBlocks(m);
      PadFillsBlocks(n);
      assert Pad(n)[|n|] == 0x80;
      assert Pad(m)[|n|] == Filler(|m|)[|n| - |m|] == 0;
    }
  }
}
