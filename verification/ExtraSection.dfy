/**
  The section that ends every Nintendo DS save state made here: what melonDS leaves out of its own
  (firmware settings, the divider and square root registers, the simulated access point).
 */
module ExtraSection {
  import opened Words
  import opened Wrappers

  const MAGIC: seq<byte> := [0x53, 0x48, 0x55, 0x4B]
  const VERSION: u32 := 1
  const STATE_HEADER_SIZE: nat := 0x10
  const SECTION_HEADER_SIZE: nat := 0x10
  const REGISTER_WORDS: nat := 11
  const PACKET_SIZE: nat := 2048
  const ACCESS_POINT_SIZE: nat := 8 + 2 + 1 + 1 + 4 + 4 + 4 + PACKET_SIZE
  const MAX_U32: nat := 0xFFFF_FFFF

  datatype AccessPoint = AccessPoint(
    usCounter: u64, seqNo: u16, beaconDue: bool, packetLen: i32, rxNum: i32, clientStatus: i32, packet: seq<byte>)

  /** What the section carries, and the firmware image its settings area is part of. */
  datatype Extras = Extras(firmware: seq<byte>, registers: seq<u32>, ap: AccessPoint)

  predicate ExtrasOk(x: Extras)
  {
    |x.firmware| <= MAX_U32 && |x.registers| == REGISTER_WORDS && |x.ap.packet| == PACKET_SIZE
  }

  /** Where a firmware image says its access points are. */
  type Layout = seq<byte> -> u32

  function SettingsArea(layout: Layout, firmware: seq<byte>): (r: Option<(nat, nat)>)
    ensures r.Some? ==> r.value.0 + r.value.1 == |firmware|
  {
    var offset := layout(firmware);
    if offset < STATE_HEADER_SIZE || offset >= |firmware| then None else Some((offset, |firmware| - offset))
  }

  /** Of an image that points somewhere unusable, nothing is kept. */
  function SavedArea(layout: Layout, firmware: seq<byte>): (r: (nat, nat))
    ensures r.0 + r.1 <= |firmware|
  {
    match SettingsArea(layout, firmware)
    case None => (0, 0)
    case Some(area) => area
  }

  // ---- Writing ---------------------------------------------------------------------------------

  function SaveAccessPoint(ap: AccessPoint): seq<byte>
  {
    U64(ap.usCounter) + U16(ap.seqNo) + [if ap.beaconDue then 1 else 0, 0]
    + U32(Bits(ap.packetLen)) + U32(Bits(ap.rxNum)) + U32(Bits(ap.clientStatus)) + ap.packet
  }

  function Words32(words: seq<u32>): (b: seq<byte>)
    ensures |b| == 4 * |words|
  {
    if words == [] then [] else Words32(words[..|words| - 1]) + U32(words[|words| - 1])
  }

  function Payload(layout: Layout, x: Extras): seq<byte>
    requires ExtrasOk(x)
  {
    var area := SavedArea(layout, x.firmware);
    U32(VERSION) + U32(area.0) + U32(area.1) + x.firmware[area.0..area.0 + area.1]
    + Words32(x.registers) + SaveAccessPoint(x.ap)
  }

  function Header(magic: seq<byte>, size: u32): seq<byte> { magic + U32(size) + [0, 0, 0, 0, 0, 0, 0, 0] }

  function SectionSize(layout: Layout, x: Extras): nat
    requires ExtrasOk(x)
  {
    var area := SavedArea(layout, x.firmware);
    SECTION_HEADER_SIZE + 12 + area.1 + REGISTER_WORDS * 4 + ACCESS_POINT_SIZE
  }

  /** The state's own length, in its header. */
  function WithLength(b: seq<byte>, n: u32): (r: seq<byte>)
    requires |b| >= STATE_HEADER_SIZE
    ensures |r| == |b|
  {
    b[..8] + U32(n) + b[12..]
  }

  predicate Fits(layout: Layout, x: Extras, length: nat, capacity: nat)
    requires ExtrasOk(x)
  {
    length >= STATE_HEADER_SIZE && length + SectionSize(layout, x) <= capacity
    && length + SectionSize(layout, x) <= MAX_U32
  }

  /** The finished state with the section at its end. */
  function Appended(layout: Layout, x: Extras, state: seq<byte>): seq<byte>
    requires ExtrasOk(x) && Fits(layout, x, |state|, MAX_U32)
  {
    PayloadSize(layout, x);
    WithLength(state + Header(MAGIC, SectionSize(layout, x)) + Payload(layout, x), |state| + SectionSize(layout, x))
  }

  lemma ApSize(ap: AccessPoint)
    requires |ap.packet| == PACKET_SIZE
    ensures |SaveAccessPoint(ap)| == ACCESS_POINT_SIZE
  {
  }

  lemma PayloadSize(layout: Layout, x: Extras)
    requires ExtrasOk(x)
    ensures SECTION_HEADER_SIZE + |Payload(layout, x)| == SectionSize(layout, x)
  {
    hide SaveAccessPoint, Words32;
    ApSize(x.ap);
  }

  // ---- Reading ---------------------------------------------------------------------------------

  /** The payload of the first section of that name, walking from `offset`. */
  function Find(b: seq<byte>, magic: seq<byte>, offset: nat): (r: Option<(nat, nat)>)
    ensures r.Some? ==> offset + SECTION_HEADER_SIZE <= r.value.0 && r.value.0 + r.value.1 <= |b|
    decreases |b| - offset
  {
    if offset + SECTION_HEADER_SIZE > |b| then None
    else
      var length := ReadU32(b, offset + 4);
      if length < SECTION_HEADER_SIZE || length > |b| - offset then None
      else if b[offset..offset + 4] == magic then Some((offset + SECTION_HEADER_SIZE, length - SECTION_HEADER_SIZE))
      else Find(b, magic, offset + length)
  }

  datatype Extra = Extra(fwOffset: u32, firmware: seq<byte>, registers: seq<byte>, ap: seq<byte>)

  function ParsePayload(p: seq<byte>): Option<Extra>
  {
    if |p| < 12 || ReadU32(p, 0) < 1 then None
    else
      var n := ReadU32(p, 8);
      if n > |p| - 12 || |p| - 12 - n < REGISTER_WORDS * 4 + ACCESS_POINT_SIZE then None
      else
        var at := 12 + n;
        Some(Extra(ReadU32(p, 4), p[12..at], p[at..at + REGISTER_WORDS * 4],
                   p[at + REGISTER_WORDS * 4..at + REGISTER_WORDS * 4 + ACCESS_POINT_SIZE]))
  }

  function ParseExtra(b: seq<byte>): Option<Extra>
  {
    match Find(b, MAGIC, STATE_HEADER_SIZE)
    case None => None
    case Some((at, length)) => ParsePayload(b[at..at + length])
  }

  function ReadWords(b: seq<byte>): (w: seq<u32>)
    requires |b| % 4 == 0
    ensures |w| == |b| / 4
  {
    if b == [] then [] else ReadWords(b[..|b| - 4]) + [ReadU32(b, |b| - 4)]
  }

  function LoadAccessPoint(b: seq<byte>): AccessPoint
    requires |b| == ACCESS_POINT_SIZE
  {
    var packetLen := ReadU32(b, 12);
    AccessPoint(ReadU64(b, 0), ReadU16(b, 8), b[10] != 0,
                if packetLen <= PACKET_SIZE then packetLen else 0,
                Signed(ReadU32(b, 16)), Signed(ReadU32(b, 20)), b[24..])
  }

  function Splice(b: seq<byte>, at: nat, bytes: seq<byte>): (r: seq<byte>)
    requires at + |bytes| <= |b|
    ensures |r| == |b|
  {
    b[..at] + bytes + b[at + |bytes|..]
  }

  /** What is put back after melonDS loaded a state. The firmware is only when it is laid out the same. */
  function Restored(layout: Layout, x: Extras, b: seq<byte>): (r: Extras)
    requires ExtrasOk(x)
    ensures ExtrasOk(r) && |r.firmware| == |x.firmware|
  {
    match ParseExtra(b)
    case None => x
    case Some(e) =>
      var firmware := if SettingsArea(layout, x.firmware) == Some((e.fwOffset as nat, |e.firmware|))
        then Splice(x.firmware, e.fwOffset, e.firmware) else x.firmware;
      Extras(firmware, ReadWords(e.registers), LoadAccessPoint(e.ap))
  }

  // ---- Round trip ------------------------------------------------------------------------------

  /** A packet length out of range is taken as none. */
  function Sane(ap: AccessPoint): AccessPoint
  {
    if 0 <= ap.packetLen <= PACKET_SIZE then ap else ap.(packetLen := 0)
  }

  lemma LongLongFoundAt(head: seq<byte>, v: u64, rest: seq<byte>)
    ensures |head + U64(v) + rest| == |head| + 8 + |rest|
    ensures ReadU64(head + U64(v) + rest, |head|) == v
  {
    var lo, hi := U32(v % 0x1_0000_0000), U32(v / 0x1_0000_0000);
    assert head + U64(v) + rest == head + lo + (hi + rest) == (head + lo) + hi + rest;
    LongWordsFoundAt(head, v % 0x1_0000_0000, hi + rest);
    LongWordsFoundAt(head + lo, v / 0x1_0000_0000, rest);
  }

  lemma AccessPointHead(ap: AccessPoint)
    requires |ap.packet| == PACKET_SIZE
    ensures var b := SaveAccessPoint(ap);
            && |b| == ACCESS_POINT_SIZE
            && ReadU64(b, 0) == ap.usCounter && ReadU16(b, 8) == ap.seqNo && b[10] == (if ap.beaconDue then 1 else 0)
            && b[24..] == ap.packet
  {
    hide U16, U32, U64, ReadU16, ReadU32, ReadU64, Bits;
    ApSize(ap);
    var b := SaveAccessPoint(ap);
    var due: seq<byte> := [if ap.beaconDue then 1 else 0, 0];
    var tail := U32(Bits(ap.packetLen)) + U32(Bits(ap.rxNum)) + U32(Bits(ap.clientStatus)) + ap.packet;
    var counter, seqNo := U64(ap.usCounter), U16(ap.seqNo);
    assert b == counter + seqNo + due + tail;
    assert b == [] + counter + (seqNo + due + tail);
    assert b == counter + seqNo + (due + tail);
    assert b[10] == due[0] && b[24..] == ap.packet;
    LongLongFoundAt([], ap.usCounter, seqNo + due + tail);
    WordsFoundAt(counter, ap.seqNo, due + tail);
  }

  lemma AccessPointTail(ap: AccessPoint)
    requires |ap.packet| == PACKET_SIZE
    ensures var b := SaveAccessPoint(ap);
            && |b| == ACCESS_POINT_SIZE
            && ReadU32(b, 12) == Bits(ap.packetLen) && ReadU32(b, 16) == Bits(ap.rxNum)
               && ReadU32(b, 20) == Bits(ap.clientStatus)
  {
    hide U16, U32, U64, ReadU32, Bits;
    ApSize(ap);
    var b := SaveAccessPoint(ap);
    var head := U64(ap.usCounter) + U16(ap.seqNo) + [if ap.beaconDue then 1 else 0, 0];
    var len, rx, status := U32(Bits(ap.packetLen)), U32(Bits(ap.rxNum)), U32(Bits(ap.clientStatus));
    assert |head| == 12 && |len| == 4 && |rx| == 4;
    assert b == head + len + (rx + status + ap.packet);
    assert b == (head + len) + rx + (status + ap.packet);
    assert b == (head + len + rx) + status + ap.packet;
    LongWordsFoundAt(head, Bits(ap.packetLen), rx + status + ap.packet);
    LongWordsFoundAt(head + len, Bits(ap.rxNum), status + ap.packet);
    LongWordsFoundAt(head + len + rx, Bits(ap.clientStatus), ap.packet);
  }

  /** The access point comes back as it was, exactly when its packet length makes sense. */
  lemma AccessPointRoundTrip(ap: AccessPoint)
    requires |ap.packet| == PACKET_SIZE
    ensures |SaveAccessPoint(ap)| == ACCESS_POINT_SIZE
    ensures LoadAccessPoint(SaveAccessPoint(ap)) == Sane(ap)
    ensures LoadAccessPoint(SaveAccessPoint(ap)) == ap <==> 0 <= ap.packetLen <= PACKET_SIZE
  {
    hide SaveAccessPoint;
    AccessPointHead(ap);
    AccessPointTail(ap);
  }

  lemma {:induction false} WordsRoundTrip(words: seq<u32>)
    ensures ReadWords(Words32(words)) == words
  {
    if words != [] {
      var init, last := words[..|words| - 1], words[|words| - 1];
      WordsRoundTrip(init);
      LongWordsFoundAt(Words32(init), last, []);
      assert Words32(words) == Words32(init) + U32(last) + [];
      assert Words32(words)[..|Words32(words)| - 4] == Words32(init);
    }
  }

  /** The payload reads back as what it was made of, whatever a later version puts after it. */
  lemma PayloadRoundTrip(layout: Layout, x: Extras, more: seq<byte>)
    requires ExtrasOk(x)
    ensures var area := SavedArea(layout, x.firmware);
            ParsePayload(Payload(layout, x) + more)
            == Some(Extra(area.0, x.firmware[area.0..area.0 + area.1], Words32(x.registers), SaveAccessPoint(x.ap)))
  {
    hide SaveAccessPoint, Words32, U32, ReadU32;
    var area := SavedArea(layout, x.firmware);
    var version, at, size := U32(VERSION), U32(area.0), U32(area.1);
    var fw, registers, ap := x.firmware[area.0..area.0 + area.1], Words32(x.registers), SaveAccessPoint(x.ap);
    ApSize(x.ap);
    var rest := fw + registers + ap + more;
    var p := Payload(layout, x) + more;
    ThreeWords(VERSION, area.0, area.1, rest);
    assert p == version + at + size + rest;
    assert ReadU32(p, 8) == |fw| && |p| == 12 + |rest|;
    assert rest[..|fw|] == fw && rest[|fw|..|fw| + 44] == registers
           && rest[|fw| + 44..|fw| + 44 + ACCESS_POINT_SIZE] == ap;
    assert p[12..12 + |fw|] == rest[..|fw|];
    assert p[12 + |fw|..12 + |fw| + 44] == rest[|fw|..|fw| + 44];
    assert p[12 + |fw| + 44..12 + |fw| + 44 + ACCESS_POINT_SIZE] == rest[|fw| + 44..|fw| + 44 + ACCESS_POINT_SIZE];
  }

  lemma ThreeWords(a: u32, b: u32, c: u32, rest: seq<byte>)
    ensures |U32(a)| == |U32(b)| == |U32(c)| == 4
    ensures var p := U32(a) + U32(b) + U32(c) + rest;
            |p| == 12 + |rest| && ReadU32(p, 0) == a && ReadU32(p, 4) == b && ReadU32(p, 8) == c && p[12..] == rest
  {
    var wa, wb, wc := U32(a), U32(b), U32(c);
    var p := wa + wb + wc + rest;
    assert p == [] + wa + (wb + wc + rest) == wa + wb + (wc + rest) == (wa + wb) + wc + rest;
    LongWordsFoundAt([], a, wb + wc + rest);
    LongWordsFoundAt(wa, b, wc + rest);
    LongWordsFoundAt(wa + wb, c, rest);
  }
}
