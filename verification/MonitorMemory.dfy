/**
  Console memory as the memory tools address it: regions, ranges inside one region, and addresses
  reached through pointers.
 */
module MonitorMemory {
  import opened Words
  import opened Wrappers

  datatype Region = Region(base: u32, len: u32, writable: bool)

  /** The bytes behind a region can be fewer than it is long; the rest is unmapped. */
  datatype Memory = Memory(regions: seq<Region>, data: seq<seq<byte>>)

  predicate Shaped(m: Memory) { |m.data| == |m.regions| }

  /** Where a range starts in a region that holds all of it. */
  function OffsetOf(r: Region, address: u32, len: nat): Option<nat>
  {
    if address < r.base then None
    else if address - r.base + len > r.len then None
    else Some(address - r.base)
  }

  /** The first region that holds all of the range. */
  function Locate(regions: seq<Region>, address: u32, len: nat): (r: Option<(nat, nat)>)
    ensures r.Some? ==> r.value.0 < |regions| && OffsetOf(regions[r.value.0], address, len) == Some(r.value.1)
    ensures r.Some? ==> forall k :: 0 <= k < r.value.0 ==> OffsetOf(regions[k], address, len).None?
    ensures r.None? ==> forall k :: 0 <= k < |regions| ==> OffsetOf(regions[k], address, len).None?
  {
    if regions == [] then None
    else
      match OffsetOf(regions[0], address, len)
      case Some(offset) => Some((0, offset))
      case None =>
        match Locate(regions[1..], address, len)
        case None => None
        case Some((index, offset)) => Some((index + 1, offset))
  }

  function Slice(m: Memory, address: u32, len: nat): (r: Option<seq<byte>>)
    requires Shaped(m)
    ensures r.Some? ==> |r.value| == len
  {
    match Locate(m.regions, address, len)
    case None => None
    case Some((region, offset)) =>
      if offset + len <= |m.data[region]| then Some(m.data[region][offset..offset + len]) else None
  }

  predicate Writable(m: Memory, address: u32, len: nat)
  {
    var at := Locate(m.regions, address, len);
    at.Some? && m.regions[at.value.0].writable
  }

  function Spliced(data: seq<byte>, offset: nat, bytes: seq<byte>): seq<byte>
    requires offset + |bytes| <= |data|
  {
    data[..offset] + bytes + data[offset + |bytes|..]
  }

  /** A write that does not fit what is mapped changes nothing. */
  function WriteAt(m: Memory, address: u32, bytes: seq<byte>): Memory
    requires Shaped(m)
    ensures Shaped(WriteAt(m, address, bytes))
  {
    match Locate(m.regions, address, |bytes|)
    case None => m
    case Some((region, offset)) =>
      if offset + |bytes| <= |m.data[region]| then
        m.(data := m.data[region := Spliced(m.data[region], offset, bytes)])
      else m
  }

  lemma WriteIsRead(m: Memory, address: u32, bytes: seq<byte>)
    requires Shaped(m) && Slice(m, address, |bytes|).Some?
    ensures Slice(WriteAt(m, address, bytes), address, |bytes|) == Some(bytes)
  {
    var (region, offset) := Locate(m.regions, address, |bytes|).value;
    assert Spliced(m.data[region], offset, bytes)[offset..offset + |bytes|] == bytes;
  }

  predicate Apart(a: u32, aLen: nat, b: u32, bLen: nat) { a + aLen <= b || b + bLen <= a }

  lemma WriteElsewhere(m: Memory, address: u32, bytes: seq<byte>, other: u32, len: nat)
    requires Shaped(m) && Apart(address, |bytes|, other, len)
    ensures Slice(WriteAt(m, address, bytes), other, len) == Slice(m, other, len)
  {
    hide Spliced;
    var at, there := Locate(m.regions, address, |bytes|), Locate(m.regions, other, len);
    if at.Some? && there.Some? && at.value.0 == there.value.0 && at.value.1 + |bytes| <= |m.data[at.value.0]| {
      SplicedElsewhere(m.data[at.value.0], at.value.1, bytes, there.value.1, len);
    }
  }

  lemma SplicedElsewhere(data: seq<byte>, offset: nat, bytes: seq<byte>, other: nat, len: nat)
    requires offset + |bytes| <= |data| && (offset + |bytes| <= other || other + len <= offset)
    ensures var spliced := Spliced(data, offset, bytes);
            |spliced| == |data| && (other + len <= |data| ==> spliced[other..other + len] == data[other..other + len])
  {
    var spliced := Spliced(data, offset, bytes);
    assert forall k :: 0 <= k < offset ==> spliced[k] == data[k];
    assert forall k :: offset + |bytes| <= k < |data| ==> spliced[k] == data[k];
  }

  lemma WriteKeepsMapping(m: Memory, address: u32, bytes: seq<byte>, other: u32, len: nat)
    requires Shaped(m)
    ensures WriteAt(m, address, bytes).regions == m.regions
    ensures Slice(WriteAt(m, address, bytes), other, len).Some? == Slice(m, other, len).Some?
  {
  }

  // ---- Addresses -------------------------------------------------------------------------------

  /** An address, or one reached by reading a 32-bit pointer and adding an offset, per offset. */
  datatype AddressPath = AddressPath(base: u32, offsets: seq<i32>)

  predicate Direct(p: AddressPath) { p.offsets == [] }

  function Resolve(p: AddressPath, m: Memory): Option<u32>
    requires Shaped(m)
    decreases |p.offsets|
  {
    if p.offsets == [] then Some(p.base)
    else
      match Slice(m, p.base, 4)
      case None => None
      case Some(bytes) =>
        Resolve(AddressPath((ReadU32(bytes, 0) + p.offsets[0]) % 0x1_0000_0000, p.offsets[1..]), m)
  }

  /** The bytes a watch of this length sees. */
  function Read(m: Memory, p: AddressPath, len: nat): (r: Option<seq<byte>>)
    requires Shaped(m)
    ensures r.Some? ==> |r.value| == len
  {
    match Resolve(p, m)
    case None => None
    case Some(address) => Slice(m, address, len)
  }

  /** `Resolve`, by following one pointer after another. */
  method Follow(p: AddressPath, m: Memory) returns (address: Option<u32>)
    requires Shaped(m)
    ensures address == Resolve(p, m)
  {
    hide Slice, ReadU32;
    var at: u32 := p.base;
    assert p.offsets[0..] == p.offsets;
    for i := 0 to |p.offsets|
      invariant Resolve(AddressPath(at, p.offsets[i..]), m) == Resolve(p, m)
    {
      var pointer := Slice(m, at, 4);
      assert p.offsets[i..][0] == p.offsets[i] && p.offsets[i..][1..] == p.offsets[i + 1..];
      if pointer.None? {
        return None;
      }
      at := (ReadU32(pointer.value, 0) + p.offsets[i]) % 0x1_0000_0000;
    }
    return Some(at);
  }
}
