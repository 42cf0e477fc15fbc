/**
  Machine words, and their little-endian bytes.
 */
module Words {
  type byte = b: int | 0 <= b < 0x100
  type u16 = w: int | 0 <= w < 0x1_0000
  type u32 = w: int | 0 <= w < 0x1_0000_0000
  type i32 = w: int | -0x8000_0000 <= w < 0x8000_0000

  type u64 = w: int | 0 <= w < 0x1_0000_0000_0000_0000

  function U16(v: u16): (b: seq<byte>) ensures |b| == 2 { [v % 0x100, v / 0x100] }

  function U32(v: u32): (b: seq<byte>) ensures |b| == 4 { U16(v % 0x1_0000) + U16(v / 0x1_0000) }

  /** A signed word as the unsigned one with the same bits. */
  function Bits(v: i32): u32 { if v < 0 then v + 0x1_0000_0000 else v }

  function ReadU16(b: seq<byte>, i: nat): u16
    requires i + 2 <= |b|
  {
    b[i] as int + 0x100 * b[i + 1] as int
  }

  function ReadU32(b: seq<byte>, i: nat): u32
    requires i + 4 <= |b|
  {
    ReadU16(b, i) as int + 0x1_0000 * ReadU16(b, i + 2) as int
  }

  function U64(v: u64): (b: seq<byte>) ensures |b| == 8 { U32(v % 0x1_0000_0000) + U32(v / 0x1_0000_0000) }

  function ReadU64(b: seq<byte>, i: nat): u64
    requires i + 8 <= |b|
  {
    ReadU32(b, i) as int + 0x1_0000_0000 * ReadU32(b, i + 4) as int
  }

  function Signed(v: u32): i32 { if v >= 0x8000_0000 then v - 0x1_0000_0000 else v }

  lemma ReadU16Inverts(b: seq<byte>, i: nat)
    requires i + 2 <= |b|
    ensures U16(ReadU16(b, i)) == b[i..i + 2]
  {
  }

  lemma ReadU32Inverts(b: seq<byte>, i: nat)
    requires i + 4 <= |b|
    ensures U32(ReadU32(b, i)) == b[i..i + 4]
  {
    ReadU16Inverts(b, i);
    ReadU16Inverts(b, i + 2);
    assert ReadU32(b, i) % 0x1_0000 == ReadU16(b, i) && ReadU32(b, i) / 0x1_0000 == ReadU16(b, i + 2);
    assert b[i..i + 4] == b[i..i + 2] + b[i + 2..i + 4];
  }

  /** Words written one after another are found at their offsets. */
  lemma WordsFoundAt(head: seq<byte>, v: u16, rest: seq<byte>)
    ensures |head + U16(v) + rest| == |head| + 2 + |rest|
    ensures ReadU16(head + U16(v) + rest, |head|) == v
  {
    var b := head + U16(v) + rest;
    assert b[|head|] == U16(v)[0] && b[|head| + 1] == U16(v)[1];
  }

  lemma LongWordsFoundAt(head: seq<byte>, v: u32, rest: seq<byte>)
    ensures |head + U32(v) + rest| == |head| + 4 + |rest|
    ensures ReadU32(head + U32(v) + rest, |head|) == v
  {
    var lo, hi := U16(v % 0x1_0000), U16(v / 0x1_0000);
    assert head + U32(v) + rest == head + lo + (hi + rest) == (head + lo) + hi + rest;
    WordsFoundAt(head, v % 0x1_0000, hi + rest);
    WordsFoundAt(head + lo, v / 0x1_0000, rest);
  }
}
