/** Bit fields of a message header's extensions, and little-endian integers. */
module Bits {

  type Bytes = seq<bv8>

  // ------------------------------------------------ header extensions

  const BLOCK_TYPE_MASK: bv16 := 0x0f00
  const COUNT_MASK: bv16 := 0xf000

  function BlockType(ext: bv16): bv16 { (ext & BLOCK_TYPE_MASK) >> 8 }

  function SetBlockType(ext: bv16, t: bv16): bv16 { (ext & !BLOCK_TYPE_MASK) | (t << 8) }

  function Count(ext: bv16): bv16 { (ext & COUNT_MASK) >> 12 }

  function SetCount(ext: bv16, c: bv16): bv16 { (ext & !COUNT_MASK) | (c << 12) }

  function FlagBit(k: nat): bv16
    requires k < 8
  {
    (1 as bv16) << k
  }

  predicate Flag(ext: bv16, k: nat)
    requires k < 8
  {
    ext & FlagBit(k) != 0
  }

  function SetFlag(ext: bv16, k: nat): bv16
    requires k < 8
  {
    ext | FlagBit(k)
  }

  /** A block type below 16 is stored and read back; count and flags keep their values. */
  lemma BlockTypeStored(ext: bv16, t: bv16, k: nat)
    requires t < 16 && k < 8
    ensures BlockType(SetBlockType(ext, t)) == t
    ensures Count(SetBlockType(ext, t)) == Count(ext)
    ensures Flag(SetBlockType(ext, t), k) == Flag(ext, k)
  {
    hide FlagBit, BlockType, SetBlockType, Count;
    FlagIsLow(k);
    BlockTypeMasks(ext, t, FlagBit(k));
  }

  lemma BlockTypeMasks(ext: bv16, t: bv16, f: bv16)
    requires t < 16 && f & 0xff00 == 0
    ensures BlockType(SetBlockType(ext, t)) == t
    ensures Count(SetBlockType(ext, t)) == Count(ext)
    ensures SetBlockType(ext, t) & f == ext & f
  {
  }

  lemma CountStored(ext: bv16, c: bv16, k: nat)
    requires c < 16 && k < 8
    ensures Count(SetCount(ext, c)) == c
    ensures BlockType(SetCount(ext, c)) == BlockType(ext)
    ensures Flag(SetCount(ext, c), k) == Flag(ext, k)
  {
    hide FlagBit, BlockType, SetCount, Count;
    FlagIsLow(k);
    CountMasks(ext, c, FlagBit(k));
  }

  lemma CountMasks(ext: bv16, c: bv16, f: bv16)
    requires c < 16 && f & 0xff00 == 0
    ensures Count(SetCount(ext, c)) == c
    ensures BlockType(SetCount(ext, c)) == BlockType(ext)
    ensures SetCount(ext, c) & f == ext & f
  {
  }

  lemma FlagStored(ext: bv16, k: nat, j: nat)
    requires k < 8 && j < 8
    ensures Flag(SetFlag(ext, k), j) == (j == k || Flag(ext, j))
    ensures BlockType(SetFlag(ext, k)) == BlockType(ext)
    ensures Count(SetFlag(ext, k)) == Count(ext)
  {
    hide Flag, SetFlag, BlockType, Count;
    FlagKeepsRest(ext, k);
    if k == j {
      FlagSets(ext, k);
    } else {
      FlagLeaves(ext, k, j);
    }
  }

  lemma FlagKeepsRest(ext: bv16, k: nat)
    requires k < 8
    ensures BlockType(SetFlag(ext, k)) == BlockType(ext) && Count(SetFlag(ext, k)) == Count(ext)
  {
    hide FlagBit, BlockType, Count;
    FlagIsLow(k);
    LowMasks(ext, FlagBit(k));
  }

  lemma LowMasks(ext: bv16, f: bv16)
    requires f & 0xff00 == 0
    ensures BlockType(ext | f) == BlockType(ext) && Count(ext | f) == Count(ext)
  {
  }

  lemma FlagSets(ext: bv16, k: nat)
    requires k < 8
    ensures Flag(SetFlag(ext, k), k)
  {
    hide FlagBit;
    FlagIsLow(k);
    SameMask(ext, FlagBit(k));
  }

  lemma FlagLeaves(ext: bv16, k: nat, j: nat)
    requires k < 8 && j < 8 && k != j
    ensures Flag(SetFlag(ext, k), j) == Flag(ext, j)
  {
    hide FlagBit;
    FlagsMask(ext, k, j);
  }

  lemma FlagsMask(ext: bv16, k: nat, j: nat)
    requires k < 8 && j < 8 && k != j
    ensures (ext | FlagBit(k)) & FlagBit(j) == ext & FlagBit(j)
  {
    hide FlagBit;
    FlagsApart(k, j);
    ApartMasks(ext, FlagBit(k), FlagBit(j));
  }

  lemma SameMask(ext: bv16, f: bv16)
    requires f != 0
    ensures (ext | f) & f != 0
  {
  }

  lemma ApartMasks(ext: bv16, f: bv16, g: bv16)
    requires f & g == 0
    ensures (ext | f) & g == ext & g
  {
  }

  lemma FlagIsLow(k: nat)
    requires k < 8
    ensures FlagBit(k) & 0xff00 == 0 && FlagBit(k) != 0
  {
    hide FlagBit;
    FlagBits();
  }

  lemma FlagBits()
    ensures FlagBit(0) == 1 && FlagBit(1) == 2 && FlagBit(2) == 4 && FlagBit(3) == 8
    ensures FlagBit(4) == 16 && FlagBit(5) == 32 && FlagBit(6) == 64 && FlagBit(7) == 128
  {
  }

  lemma FlagsApart(k: nat, j: nat)
    requires k < 8 && j < 8 && k != j
    ensures FlagBit(k) & FlagBit(j) == 0
  {
    hide FlagBit;
    FlagBits();
  }

  /** A block type of 16 or more spills into the count: the count survives exactly
      when the spilled bits were set already. */
  lemma WideBlockTypeSpills(ext: bv16, t: bv16)
    requires t < 256
    ensures Count(SetBlockType(ext, t)) == Count(ext) <==> (t >> 4) & !Count(ext) == 0
  {
  }

  // ------------------------------------------------ little-endian integers

  function Le16(x: bv16): (b: Bytes)
    ensures |b| == 2
  {
    [(x & 0xff) as bv8, (x >> 8) as bv8]
  }

  function Un16(b: Bytes): bv16
    requires |b| == 2
  {
    (b[0] as bv16) | ((b[1] as bv16) << 8)
  }

  lemma Le16Inverse(x: bv16, b: Bytes)
    ensures Un16(Le16(x)) == x
    ensures |b| == 2 ==> Le16(Un16(b)) == b
  {
  }

  function Low16(x: bv32): bv16 { (x & 0xffff) as bv16 }

  function High16(x: bv32): bv16 { (x >> 16) as bv16 }

  function Pair32(lo: bv16, hi: bv16): bv32 { (lo as bv32) | ((hi as bv32) << 16) }

  lemma Halves32(x: bv32, lo: bv16, hi: bv16)
    ensures Pair32(Low16(x), High16(x)) == x
    ensures Low16(Pair32(lo, hi)) == lo && High16(Pair32(lo, hi)) == hi
  {
  }

  function Le32(x: bv32): (b: Bytes)
    ensures |b| == 4
  {
    Le16(Low16(x)) + Le16(High16(x))
  }

  function Un32(b: Bytes): bv32
    requires |b| == 4
  {
    Pair32(Un16(b[..2]), Un16(b[2..]))
  }

  lemma Le32Inverse(x: bv32, b: Bytes)
    ensures Un32(Le32(x)) == x
    ensures |b| == 4 ==> Le32(Un32(b)) == b
  {
    hide Le16, Un16, Pair32, Low16, High16;
    Le16Inverse(Low16(x), []);
    Le16Inverse(High16(x), []);
    assert Le32(x)[..2] == Le16(Low16(x)) && Le32(x)[2..] == Le16(High16(x));
    Halves32(x, 0, 0);
    if |b| == 4 {
      Le16Inverse(0, b[..2]);
      Le16Inverse(0, b[2..]);
      Halves32(x, Un16(b[..2]), Un16(b[2..]));
      assert b == b[..2] + b[2..];
    }
  }

  function Low32(x: bv64): bv32 { (x & 0xffff_ffff) as bv32 }

  function High32(x: bv64): bv32 { (x >> 32) as bv32 }

  function Pair64(lo: bv32, hi: bv32): bv64 { (lo as bv64) | ((hi as bv64) << 32) }

  lemma Halves64(x: bv64, lo: bv32, hi: bv32)
    ensures Pair64(Low32(x), High32(x)) == x
    ensures Low32(Pair64(lo, hi)) == lo && High32(Pair64(lo, hi)) == hi
  {
  }

  function Le64(x: bv64): (b: Bytes)
    ensures |b| == 8
  {
    Le32(Low32(x)) + Le32(High32(x))
  }

  function Un64(b: Bytes): bv64
    requires |b| == 8
  {
    Pair64(Un32(b[..4]), Un32(b[4..]))
  }

  lemma Le64Inverse(x: bv64, b: Bytes)
    ensures Un64(Le64(x)) == x
    ensures |b| == 8 ==> Le64(Un64(b)) == b
  {
    hide Le32, Un32, Pair64, Low32, High32;
    Le32Inverse(Low32(x), []);
    Le32Inverse(High32(x), []);
    assert Le64(x)[..4] == Le32(Low32(x)) && Le64(x)[4..] == Le32(High32(x));
    Halves64(x, 0, 0);
    if |b| == 8 {
      Le32Inverse(0, b[..4]);
      Le32Inverse(0, b[4..]);
      Halves64(x, Un32(b[..4]), Un32(b[4..]));
      assert b == b[..4] + b[4..];
    }
  }
}
