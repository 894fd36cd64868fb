/** The streaming SHA-1 class and the hash it must compute: sections 5.1.1 and 6.1.2 of FIPS 180-4. */
module Sha1 {
  import opened Bytes
  import opened Sequences

  // ---- the standard ----

  type Word = bv32

  type Block = b: seq<byte> | |b| == 64 witness seq(64, i => 0)

  datatype Digest = Digest(a: Word, b: Word, c: Word, d: Word, e: Word)

  const INITIAL := Digest(0x67452301, 0xEFCDAB89, 0x98BADCFE, 0x10325476, 0xC3D2E1F0)

  function RotL1(x: Word): Word { (x << 1) | (x >> 31) }

  function RotL5(x: Word): Word { (x << 5) | (x >> 27) }

  function RotL30(x: Word): Word { (x << 30) | (x >> 2) }

  function Ch(x: Word, y: Word, z: Word): Word { (x & y) ^ (!x & z) }

  /** Addition modulo 2^32. */
  function Add(x: Word, y: Word): Word { x + y }

  function Xor4(x: Word, y: Word, z: Word, w: Word): Word { x ^ y ^ z ^ w }

  function Parity(x: Word, y: Word, z: Word): Word { x ^ y ^ z }

  function Maj(x: Word, y: Word, z: Word): Word { (x & y) ^ (x & z) ^ (y & z) }

  /** The logical function and the constant of step `t`. */
  function Logic(t: nat, x: Word, y: Word, z: Word): Word {
    if t < 20 then Ch(x, y, z) else if t < 40 then Parity(x, y, z) else if t < 60 then Maj(x, y, z) else Parity(x, y, z)
  }

  function Constant(t: nat): Word {
    if t < 20 then 0x5A827999 else if t < 40 then 0x6ED9EBA1 else if t < 60 then 0x8F1BBCDC else 0xCA62C1D6
  }

  /** Four bytes as a word, the first one being the most significant. */
  function WordOf(a: byte, b: byte, c: byte, d: byte): Word {
    ((a as Word) << 24) | ((b as Word) << 16) | ((c as Word) << 8) | (d as Word)
  }

  /** The first `t` words of the message schedule of a block. */
  function Schedule(block: Block, t: nat): (w: seq<Word>)
    requires t <= 80
    ensures |w| == t
  {
    if t == 0 then [] else Schedule(block, t - 1) + [NextWord(block, Schedule(block, t - 1))]
  }

  function NextWord(block: Block, w: seq<Word>): Word
    requires |w| < 80
  {
    var t := |w|;
    if t < 16 then WordOf(block[4 * t], block[4 * t + 1], block[4 * t + 2], block[4 * t + 3])
    else RotL1(Xor4(w[t - 3], w[t - 8], w[t - 14], w[t - 16]))
  }

  function Step(h: Digest, t: nat, w: Word): Digest {
    Digest(Add(Add(Add(Add(RotL5(h.a), Logic(t, h.b, h.c, h.d)), h.e), Constant(t)), w), h.a, RotL30(h.b), h.c, h.d)
  }

  /** The working variables after `t` steps. */
  function Steps(h: Digest, w: seq<Word>, t: nat): Digest
    requires t <= |w|
  {
    if t == 0 then h else Step(Steps(h, w, t - 1), t - 1, w[t - 1])
  }

  function Compress(h: Digest, block: Block): Digest {
    var s := Steps(h, Schedule(block, 80), 80);
    Digest(Add(h.a, s.a), Add(h.b, s.b), Add(h.c, s.c), Add(h.d, s.d), Add(h.e, s.e))
  }

  function Fold(blocks: seq<Block>): Digest {
    if blocks == [] then INITIAL else Compress(Fold(blocks[..|blocks| - 1]), blocks[|blocks| - 1])
  }

  /** The number of zero bytes between the end mark and the length. */
  function Zeros(n: nat): nat {
    var r := n % 64;
    if r < 56 then 55 - r else 119 - r
  }

  function Filled(n: nat): (r: seq<byte>)
    ensures |r| == n && forall i :: 0 <= i < n ==> r[i] == 0
  {
    seq(n, i => 0)
  }

  function Padded(m: seq<byte>): seq<byte> {
    m + [0x80] + Filled(Zeros(|m|)) + ToBytes(8 * |m|, 8)
  }

  /** A padded message cut into blocks. */
  function Chop(bytes: seq<byte>): seq<Block> {
    if |bytes| < 64 then [] else [bytes[..64]] + Chop(bytes[64..])
  }

  function Hash(m: seq<byte>): Digest { Fold(Chop(Padded(m))) }

  function Flat(blocks: seq<Block>): seq<byte> {
    if blocks == [] then [] else Flat(blocks[..|blocks| - 1]) + blocks[|blocks| - 1]
  }

  lemma {:induction false} FlatLength(blocks: seq<Block>)
    ensures |Flat(blocks)| == 64 * |blocks|
  {
    if blocks != [] { FlatLength(blocks[..|blocks| - 1]); }
  }

  lemma {:induction false} FlatFirst(blocks: seq<Block>)
    requires blocks != []
    ensures Flat(blocks) == blocks[0] + Flat(blocks[1..])
    decreases |blocks|
  {
    if |blocks| > 1 {
      var n := |blocks| - 1;
      FlatFirst(blocks[..n]);
      assert blocks[..n][1..] == blocks[1..][..n - 1];
    }
  }

  /** Cutting up what was put together gives the blocks back. */
  lemma {:induction false} ChopFlat(blocks: seq<Block>)
    ensures Chop(Flat(blocks)) == blocks
    decreases |blocks|
  {
    if blocks != [] {
      FlatFirst(blocks);
      ChopFlat(blocks[1..]);
      assert Flat(blocks)[..64] == blocks[0] && Flat(blocks)[64..] == Flat(blocks[1..]);
      assert blocks == [blocks[0]] + blocks[1..];
    }
  }

  // ---- what the padding is for ----

  /** The zeros leave room for exactly the eight bytes of the length, and there is no shorter row of
      zeros that does. */
  lemma ZerosFit(n: nat, z: nat)
    ensures Zeros(n) < 64
    ensures z < 64 ==> ((n + 1 + z) % 64 == 56 <==> z == Zeros(n))
  {
    var q, r := n / 64, n % 64;
    assert n == 64 * q + r;
    Rest(q, r);
    assert n + 1 + z == 64 * q + (r + 1 + z);
  }

  /** A padded message is cut into whole blocks, and nothing of it is dropped. */
  lemma PaddedIsBlocks(m: seq<byte>)
    ensures |Padded(m)| % 64 == 0 && Flat(Chop(Padded(m))) == Padded(m)
  {
    hide ToBytes, Zeros, Chop, Flat;
    ZerosFit(|m|, Zeros(|m|));
    assert |Padded(m)| == |m| + 1 + Zeros(|m|) + 8;
    FlatChop(Padded(m));
  }

  lemma {:induction false} FlatChop(bytes: seq<byte>)
    requires |bytes| % 64 == 0
    ensures Flat(Chop(bytes)) == bytes
    decreases |bytes|
  {
    if bytes != [] {
      FlatChop(bytes[64..]);
      var rest := Chop(bytes[64..]);
      FlatFirst([bytes[..64]] + rest);
      assert ([bytes[..64]] + rest)[1..] == rest;
    }
  }

  // ---- the class ----

  /** How many values a `size_t` has. */
  const SIZES: nat := 0x1_0000_0000_0000_0000

  /** The message with the padding of the class, which writes 32 bits of the length only. */
  function Closed(m: seq<byte>): seq<byte> {
    m + [0x80] + Filled(Zeros(|m|)) + ToBytes(8 * |m| % 0x1_0000_0000, 8)
  }

  /** This is the padding of the standard, for all lengths the standard allows, exactly below 2^29 bytes. */
  lemma ClosedIsPadded(m: seq<byte>)
    requires |m| < 0x2000_0000_0000_0000
    ensures Closed(m) == Padded(m) <==> |m| < 0x2000_0000
  {
    hide Zeros, Filled, ToBytes;
    LowIsAll(8 * |m|);
    SameTail(m + [0x80] + Filled(Zeros(|m|)), ToBytes(8 * |m| % 0x1_0000_0000, 8), ToBytes(8 * |m|, 8));
  }

  lemma SameTail<T>(a: seq<T>, b: seq<T>, c: seq<T>)
    ensures a + b == a + c <==> b == c
  {
    if a + b == a + c { assert b == (a + b)[|a|..] == (a + c)[|a|..] == c; }
  }

  lemma LowIsAll(n: nat)
    requires n < SIZES
    ensures ToBytes(n % 0x1_0000_0000, 8) == ToBytes(n, 8) <==> n < 0x1_0000_0000
  {
    hide ToBytes, BigEndian, Pow256;
    Powers();
    BytesRoundTrip(n, 8);
    BytesRoundTrip(n % 0x1_0000_0000, 8);
  }

  lemma Powers()
    ensures Pow256(8) == SIZES
  {
    assert Pow256(2) == 0x1_0000 && Pow256(4) == 0x1_0000_0000 && Pow256(6) == 0x1_0000_0000_0000;
  }

  function LeftRotate(value: Word, count: nat): Word
    requires 0 < count < 32
  {
    (value << count) ^ (value >> (32 - count))
  }

  lemma Rotations(x: Word)
    ensures LeftRotate(x, 1) == RotL1(x) && LeftRotate(x, 5) == RotL5(x) && LeftRotate(x, 30) == RotL30(x)
  {
  }

  /** Choice and majority as the class computes them. */
  function Choose(b: Word, c: Word, d: Word): Word { (b & c) | (!b & d) }

  function Majority(b: Word, c: Word, d: Word): Word { (b & c) | (b & d) | (c & d) }

  lemma ChooseIsCh(x: Word, y: Word, z: Word)
    ensures Choose(x, y, z) == Ch(x, y, z)
  {
    Disjoint(x, y, z);
  }

  lemma Disjoint(x: Word, y: Word, z: Word)
    ensures (x & y) | (!x & z) == (x & y) ^ (!x & z)
  {
  }

  lemma MajorityIsMaj(x: Word, y: Word, z: Word)
    ensures Majority(x, y, z) == Maj(x, y, z)
  {
    TwoOfThree(x, y, z);
  }

  lemma TwoOfThree(x: Word, y: Word, z: Word)
    ensures (x & y) | (x & z) | (y & z) == (x & y) ^ (x & z) ^ (y & z)
  {
  }

  class SHA1 {
    const digest: array<Word>
    const block: array<byte>
    var blockByteIndex: nat
    /** A 64-bit count, which wraps around. */
    var byteCount: nat
    ghost var blocks: seq<Block>

    ghost predicate Valid()
      reads this, digest, block
    {
      && digest.Length == 5 && block.Length == 64 && blockByteIndex < 64
      && Current() == Fold(blocks)
      && byteCount == |Message()| % SIZES
    }

    ghost function Current(): Digest
      reads digest
      requires digest.Length == 5
    {
      Digest(digest[0], digest[1], digest[2], digest[3], digest[4])
    }

    /** All bytes that were processed. */
    ghost function Message(): seq<byte>
      reads this, block
      requires block.Length == 64 && blockByteIndex < 64
    {
      Flat(blocks) + block[..blockByteIndex]
    }

    constructor ()
      ensures Valid() && Message() == [] && fresh(digest) && fresh(block)
    {
      digest := new Word[5];
      block := new byte[64](i => 0);
      new;
      Reset();
    }

    method Reset()
      requires digest.Length == 5 && block.Length == 64
      modifies this, digest
      ensures Valid() && Message() == []
    {
      digest[0], digest[1], digest[2] := 0x67452301, 0xEFCDAB89, 0x98BADCFE;
      digest[3], digest[4] := 0x10325476, 0xC3D2E1F0;
      blockByteIndex, byteCount := 0, 0;
      blocks := [];
    }

    method LoadWords(w: array<Word>)
      requires block.Length == 64 && w.Length == 80 && w != digest
      modifies w
      ensures w[..16] == Schedule(block[..], 16)
    {
      hide WordOf;
      for i := 0 to 16
        invariant w[..i] == Schedule(block[..], i)
      {
        w[i] := WordOf(block[i * 4], block[i * 4 + 1], block[i * 4 + 2], block[i * 4 + 3]);
        assert w[i] == NextWord(block[..], w[..i]);
        assert w[..i + 1] == w[..i] + [w[i]];
      }
    }

    method ExpandWords(w: array<Word>)
      requires block.Length == 64 && w.Length == 80 && w != digest && w[..16] == Schedule(block[..], 16)
      modifies w
      ensures w[..] == Schedule(block[..], 80)
    {
      hide NextWord, LeftRotate, Xor4;
      for i := 16 to 80
        invariant w[..i] == Schedule(block[..], i)
      {
        ghost var s := w[..i];
        Expands(block[..], s);
        assert w[i - 3] == s[i - 3] && w[i - 8] == s[i - 8] && w[i - 14] == s[i - 14] && w[i - 16] == s[i - 16];
        w[i] := LeftRotate(Xor4(w[i - 3], w[i - 8], w[i - 14], w[i - 16]), 1);
        assert w[..i + 1] == s + [w[i]];
      }
      assert w[..80] == w[..];
    }

    /** One of the eighty steps. */
    static method Round(i: nat, a: Word, b: Word, c: Word, d: Word, e: Word, w: Word) returns (h: Digest)
      ensures h == Step(Digest(a, b, c, d, e), i, w)
    {
      hide RotL1, RotL5, RotL30, LeftRotate, Ch, Maj, Parity, Choose, Majority, Add;
      var f, k;
      ChooseIsCh(b, c, d);
      MajorityIsMaj(b, c, d);
      if i < 20 {
        f := Choose(b, c, d);
        k := 0x5A827999;
      } else if i < 40 {
        f := Parity(b, c, d);
        k := 0x6ED9EBA1;
      } else if i < 60 {
        f := Majority(b, c, d);
        k := 0x8F1BBCDC;
      } else {
        f := Parity(b, c, d);
        k := 0xCA62C1D6;
      }
      Rotations(a);
      Rotations(b);
      var temp := Add(Add(Add(Add(LeftRotate(a, 5), f), e), k), w);
      return Digest(temp, a, LeftRotate(b, 30), c, d);
    }

    /** Runs the eighty steps on the block and adds their result to the digest. */
    method ProcessBlock()
      requires digest.Length == 5 && block.Length == 64
      modifies digest
      ensures Current() == Compress(old(Current()), old(block[..])) && block[..] == old(block[..])
    {
      hide Schedule, Step, Add;
      ghost var start := Current();
      var w := new Word[80](i => 0);
      LoadWords(w);
      ExpandWords(w);
      ghost var words := w[..];
      var h := Digest(digest[0], digest[1], digest[2], digest[3], digest[4]);
      for i := 0 to 80
        invariant w[..] == words && h == Steps(start, words, i)
        modifies {}
      {
        h := Round(i, h.a, h.b, h.c, h.d, h.e, w[i]);
      }
      assert words == Schedule(block[..], 80);
      assert h == Steps(start, Schedule(block[..], 80), 80);
      digest[0] := Add(digest[0], h.a);
      digest[1] := Add(digest[1], h.b);
      digest[2] := Add(digest[2], h.c);
      digest[3] := Add(digest[3], h.d);
      digest[4] := Add(digest[4], h.e);
    }

    method ProcessByte(octet: byte)
      requires Valid()
      modifies this, digest, block
      ensures Valid() && Message() == old(Message()) + [octet]
      ensures blockByteIndex == if old(blockByteIndex) == 63 then 0 else old(blockByteIndex) + 1
    {
      hide Compress, Fold, Flat;
      ghost var before, flat := block[..blockByteIndex], Flat(blocks);
      CountNext(|Message()|);
      block[blockByteIndex] := octet;
      assert block[..blockByteIndex + 1] == before + [octet];
      Associate(flat, before, [octet]);
      blockByteIndex := blockByteIndex + 1;
      byteCount := (byteCount + 1) % SIZES;
      if blockByteIndex == 64 {
        blockByteIndex := 0;
        ProcessBlock();
        assert block[..64] == block[..];
        BlockMore(blocks, block[..]);
        blocks := blocks + [block[..]];
        assert flat + (before + [octet]) + block[..0] == flat + (before + [octet]);
      }
    }

    /** Processes some bytes of the message. */
    method ProcessBytes(data: seq<byte>)
      requires Valid()
      modifies this, digest, block
      ensures Valid() && Message() == old(Message()) + data
    {
      for i := 0 to |data|
        invariant Valid() && Message() == old(Message()) + data[..i]
      {
        ProcessByte(data[i]);
        assert data[..i + 1] == data[..i] + [data[i]];
      }
      assert data[..|data|] == data;
    }

    /** Fills the block with zeros up to position `to`, where 0 stands for the end of the block. */
    method Fill(to: nat)
      requires Valid() && (to == 0 || blockByteIndex <= to < 64)
      modifies this, digest, block
      ensures Valid() && blockByteIndex == to
      ensures var n := if to == 0
              && old(blockByteIndex) > 0 then 64 - old(blockByteIndex) else to - old(blockByteIndex);
              Message() == old(Message()) + Filled(n)
    {
      ghost var n := if to == 0 && blockByteIndex > 0 then 64 - blockByteIndex else to - blockByteIndex;
      ghost var k := 0;
      while blockByteIndex != to
        invariant k <= n && Valid() && Message() == old(Message()) + Filled(k)
        invariant blockByteIndex == if k == n then to else old(blockByteIndex) + k
        decreases n - k
      {
        ProcessByte(0);
        assert Filled(k + 1) == Filled(k) + [0];
        k := k + 1;
      }
    }

    method ProcessFour(a: byte, b: byte, c: byte, d: byte)
      requires Valid() && blockByteIndex + 4 <= 64
      modifies this, digest, block
      ensures Valid() && Message() == old(Message()) + [a, b, c, d]
      ensures blockByteIndex == if old(blockByteIndex) == 60 then 0 else old(blockByteIndex) + 4
    {
      ghost var m := Message();
      hide Valid, Message;
      ProcessByte(a);
      ProcessByte(b);
      ProcessByte(c);
      ProcessByte(d);
      FourMore(m, a, b, c, d);
    }

    lemma ZerosFromIndex()
      requires Valid()
      ensures Zeros(|Message()|) == if blockByteIndex < 56 then 55 - blockByteIndex else 119 - blockByteIndex
    {
      hide Fold;
      FlatLength(blocks);
      Rest(|blocks|, blockByteIndex);
    }

    /** Appends the end mark and zeros, up to where the length is due. */
    method Pad()
      requires Valid()
      modifies this, digest, block
      ensures Valid() && blockByteIndex == 56
      ensures Message() == old(Message()) + [0x80] + Filled(Zeros(|old(Message())|))
    {
      ghost var m := Message();
      ghost var index := blockByteIndex;
      assert index < 64;
      hide Valid, Message, Zeros, Filled, Flat;
      ZerosFromIndex();
      ProcessByte(0x80);
      if blockByteIndex > 56 {
        Fill(0);
        Fill(56);
        FillTwice(m + [0x80], 63 - index, 56);
      } else {
        Fill(56);
      }
    }

    /** Pads the message and returns the hash of all that was processed. Whatever the length, what is
        hashed is the message closed with the low 32 bits of it. */
    method GetDigest() returns (h: Digest)
      requires Valid()
      modifies this, digest, block
      ensures Valid() && blockByteIndex == 0 && Message() == Closed(old(Message()))
      ensures h == Fold(Chop(Closed(old(Message()))))
      ensures |old(Message())| < 0x2000_0000 ==> Message() == Padded(old(Message())) && h == Hash(old(Message()))
    {
      hide Zeros, Filled, ToBytes, Fold, Flat, Chop, SameBytes;
      ghost var m := Message();
      var bitCount := byteCount * 8 % SIZES;
      LowWord(|m|);
      Pad();
      WriteLength(bitCount, 8 * |m| % 0x1_0000_0000);
      assert Flat(blocks) + block[..0] == Flat(blocks);
      ChopFlat(blocks);
      return Digest(digest[0], digest[1], digest[2], digest[3], digest[4]);
    }

    /** Writes four zeros and the low 32 bits of the length. */
    method WriteLength(bitCount: nat, ghost low: nat)
      requires Valid() && blockByteIndex == 56 && low < 0x1_0000_0000 && SameBytes(bitCount, low)
      modifies this, digest, block
      ensures Valid() && blockByteIndex == 0 && Message() == old(Message()) + ToBytes(low, 8)
    {
      ghost var m := Message();
      LengthBytes(low);
      hide Valid, Message, ToBytes;
      ProcessFour(0, 0, 0, 0);
      ProcessFour(bitCount / 0x100_0000 % 256, bitCount / 0x1_0000 % 256, bitCount / 0x100 % 256, bitCount % 256);
      ghost var size := [low / 0x100_0000 % 256, low / 0x1_0000 % 256, low / 0x100 % 256, low % 256];
      Associate(m, [0, 0, 0, 0], size);
    }
  }

  /** The four bytes that are written are the same. */
  predicate SameBytes(x: nat, y: nat) {
    && x / 0x100_0000 % 256 == y / 0x100_0000 % 256 && x / 0x1_0000 % 256 == y / 0x1_0000 % 256
    && x / 0x100 % 256 == y / 0x100 % 256 && x % 256 == y % 256
  }

  lemma CountNext(n: nat)
    ensures (n % SIZES + 1) % SIZES == (n + 1) % SIZES
  {
  }

  /** Neither wrap-around of the count loses any of the four bytes that are written. */
  lemma LowWord(n: nat)
    ensures SameBytes(n % SIZES * 8 % SIZES, 8 * n % 0x1_0000_0000)
  {
    var a, q := n % SIZES, n / SIZES;
    var x, k := a * 8 % SIZES, a * 8 / SIZES;
    assert 8 * n == x + SIZES * (8 * q + k);
    var y := 8 * n % 0x1_0000_0000;
    var z := x / 0x1_0000_0000;
    assert SIZES * (8 * q + k) == 0x1_0000_0000 * (0x1_0000_0000 * (8 * q + k));
    SameLow(8 * n, x, 0x1_0000_0000 * (8 * q + k));
    LowBytes(x, z, y);
  }

  lemma SameLow(a: nat, b: nat, k: nat)
    requires a == b + 0x1_0000_0000 * k
    ensures a % 0x1_0000_0000 == b % 0x1_0000_0000
  {
  }

  lemma LowBytes(x: nat, z: nat, y: nat)
    requires x == 0x1_0000_0000 * z + y && y < 0x1_0000_0000
    ensures SameBytes(x, y)
  {
    assert x / 0x100_0000 == 256 * z + y / 0x100_0000;
    assert x / 0x1_0000 == 256 * (256 * z) + y / 0x1_0000;
    assert x / 0x100 == 256 * (0x1_0000 * z) + y / 0x100;
  }

  lemma BlockMore(blocks: seq<Block>, b: Block)
    ensures Flat(blocks + [b]) == Flat(blocks) + b && Fold(blocks + [b]) == Compress(Fold(blocks), b)
  {
    hide Compress;
    assert (blocks + [b])[..|blocks|] == blocks;
  }

  lemma FourMore(m: seq<byte>, a: byte, b: byte, c: byte, d: byte)
    ensures m + [a] + [b] + [c] + [d] == m + [a, b, c, d]
  {
  }

  lemma Rest(n: nat, index: nat)
    requires index < 64
    ensures (64 * n + index) % 64 == index
  {
  }

  lemma FillTwice(m: seq<byte>, a: nat, b: nat)
    ensures m + Filled(a) + Filled(b) == m + Filled(a + b)
  {
  }

  lemma LengthBytes(n: nat)
    requires n < 0x1_0000_0000
    ensures ToBytes(n, 8) == [0, 0, 0, 0] + [n / 0x100_0000 % 256, n / 0x1_0000 % 256, n / 0x100 % 256, n % 256]
  {
    assert n / 256 / 256 == n / 0x1_0000 && n / 0x1_0000 / 256 == n / 0x100_0000 && n / 0x100_0000 / 256 == 0;
    NoBytes(4);
    assert ToBytes(n / 0x100_0000, 5) == [0, 0, 0, 0] + [n / 0x100_0000 % 256];
    assert ToBytes(n / 0x1_0000, 6) == ToBytes(n / 0x100_0000, 5) + [n / 0x1_0000 % 256];
    assert ToBytes(n / 0x100, 7) == ToBytes(n / 0x1_0000, 6) + [n / 0x100 % 256];
  }

  lemma NoBytes(k: nat)
    ensures ToBytes(0, k) == Filled(k)
  {
    if k > 0 { NoBytes(k - 1); }
  }

  lemma Expands(block: Block, s: seq<Word>)
    requires 16 <= |s| < 80
    ensures var i := |s|;
            NextWord(block, s) == LeftRotate(Xor4(s[i - 3], s[i - 8], s[i - 14], s[i - 16]), 1)
  {
    hide RotL1, LeftRotate, Xor4, WordOf;
    var i := |s|;
    Rotations(Xor4(s[i - 3], s[i - 8], s[i - 14], s[i - 16]));
  }
}
