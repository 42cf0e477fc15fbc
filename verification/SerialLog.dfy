/**
  The per-frame serial log of a linked Game Boy Advance: a stream of tagged records, little endian.
 */
module SerialLog {
  import opened Words
  import opened Wrappers

  const LINK_LOG_MAX_BYTES: nat := 32768
  const LINK_LOG_NO_FINISH: i32 := -0x8000_0000

  const CONFIG: byte := 0x10
  const SET_MODE: byte := 0x11
  const START: byte := 0x12
  const MULTI: byte := 0x13
  const NORMAL8: byte := 0x14
  const NORMAL32: byte := 0x15
  const ASYNC: byte := 0x16
  const ATTACH: byte := 0x1E
  const DETACH: byte := 0x1F

  datatype Record =
    | Config(devices: byte, id: byte)
    | SetMode(siocnt: u16, rcnt: u16)
    | Start(ok: byte)
    | Multi(data0: u16, data1: u16, data2: u16, data3: u16)
    | Normal8(data8: byte)
    | Normal32(data32: u32)
    | Async(at: i32, siocnt: u16, rcnt: u16, finish: i32)
    | Attach
    | Detach

  // ---- Writing ---------------------------------------------------------------------------------

  function Encode(r: Record): seq<byte>
  {
    match r
    case Config(devices, id) => [CONFIG, devices, id]
    case SetMode(siocnt, rcnt) => [SET_MODE] + U16(siocnt) + U16(rcnt)
    case Start(ok) => [START, ok]
    case Multi(d0, d1, d2, d3) => [MULTI] + U16(d0) + U16(d1) + U16(d2) + U16(d3)
    case Normal8(data) => [NORMAL8, data]
    case Normal32(data) => [NORMAL32] + U32(data)
    case Async(at, siocnt, rcnt, finish) => [ASYNC] + U32(Bits(at)) + U16(siocnt) + U16(rcnt) + U32(Bits(finish))
    case Attach => [ATTACH]
    case Detach => [DETACH]
  }

  function EncodeAll(records: seq<Record>): seq<byte>
  {
    if records == [] then [] else Encode(records[0]) + EncodeAll(records[1..])
  }

  /** A record goes in whole or not at all. */
  function Append(log: seq<byte>, r: Record): seq<byte>
  {
    if |log| + |Encode(r)| <= LINK_LOG_MAX_BYTES then log + Encode(r) else log
  }

  function AppendAll(log: seq<byte>, records: seq<Record>): seq<byte>
    decreases |records|
  {
    if records == [] then log else AppendAll(Append(log, records[0]), records[1..])
  }

  /** The records that fit, in a log already `size` bytes long. */
  function Kept(size: nat, records: seq<Record>): seq<Record>
    decreases |records|
  {
    if records == [] then []
    else if size + |Encode(records[0])| <= LINK_LOG_MAX_BYTES then
      [records[0]] + Kept(size + |Encode(records[0])|, records[1..])
    else Kept(size, records[1..])
  }

  // ---- Reading ---------------------------------------------------------------------------------

  /** The bytes a record of this tag takes, 0 for a tag there is none of. */
  function Size(tag: byte): nat
  {
    if tag == CONFIG then 3 else if tag == SET_MODE then 5 else if tag == START then 2 else if tag == MULTI then 9
    else if tag == NORMAL8 then 2 else if tag == NORMAL32 then 5 else if tag == ASYNC then 13
    else if tag == ATTACH || tag == DETACH then 1 else 0
  }

  /** The record at the start of `b`, when one is there in full. */
  function ParseOne(b: seq<byte>): Option<Record>
    requires b != []
  {
    var tag := b[0];
    if Size(tag) == 0 || |b| < Size(tag) then None
    else if tag == CONFIG then Some(Config(b[1], b[2]))
    else if tag == SET_MODE then Some(SetMode(ReadU16(b, 1), ReadU16(b, 3)))
    else if tag == START then Some(Start(b[1]))
    else if tag == MULTI then Some(Multi(ReadU16(b, 1), ReadU16(b, 3), ReadU16(b, 5), ReadU16(b, 7)))
    else if tag == NORMAL8 then Some(Normal8(b[1]))
    else if tag == NORMAL32 then Some(Normal32(ReadU32(b, 1)))
    else if tag == ASYNC then Some(Async(Signed(ReadU32(b, 1)), ReadU16(b, 5), ReadU16(b, 7), Signed(ReadU32(b, 9))))
    else if tag == ATTACH then Some(Attach)
    else Some(Detach)
  }

  /** The whole log, or nothing. */
  function Parse(b: seq<byte>): Option<seq<Record>>
    decreases |b|
  {
    if b == [] then Some([])
    else
      match ParseOne(b)
      case None => None
      case Some(r) =>
        match Parse(b[Size(b[0])..])
        case None => None
        case Some(rest) => Some([r] + rest)
  }

  /** The entries the game's calls are answered from, and the changes applied on their own. */
  function SyncOf(records: seq<Record>): seq<Record>
  {
    if records == [] then [] else SyncPart(records[0]) + SyncOf(records[1..])
  }

  function SyncPart(r: Record): seq<Record> { if r.Async? || r.Attach? || r.Detach? then [] else [r] }

  function AsyncOf(records: seq<Record>): seq<Record>
  {
    if records == [] then [] else AsyncPart(records[0]) + AsyncOf(records[1..])
  }

  function AsyncPart(r: Record): seq<Record> { if r.Async? then [r] else [] }

  // ---- Round trip ------------------------------------------------------------------------------

  lemma SetModeRoundTrip(siocnt: u16, rcnt: u16, rest: seq<byte>)
    ensures ParseOne(Encode(SetMode(siocnt, rcnt)) + rest) == Some(SetMode(siocnt, rcnt))
  {
    var s, r := U16(siocnt), U16(rcnt);
    var b := [SET_MODE] + s + r + rest;
    assert b == [SET_MODE] + s + (r + rest) == ([SET_MODE] + s) + r + rest;
    WordsFoundAt([SET_MODE], siocnt, r + rest);
    WordsFoundAt([SET_MODE] + s, rcnt, rest);
  }

  lemma MultiRoundTrip(d0: u16, d1: u16, d2: u16, d3: u16, rest: seq<byte>)
    ensures ParseOne(Encode(Multi(d0, d1, d2, d3)) + rest) == Some(Multi(d0, d1, d2, d3))
  {
    var w0, w1, w2, w3 := U16(d0), U16(d1), U16(d2), U16(d3);
    var b := [MULTI] + w0 + w1 + w2 + w3 + rest;
    var h1 := [MULTI] + w0;
    var h2 := h1 + w1;
    assert b == [MULTI] + w0 + (w1 + w2 + w3 + rest);
    assert b == h1 + w1 + (w2 + w3 + rest);
    assert b == h2 + w2 + (w3 + rest);
    WordsFoundAt([MULTI], d0, w1 + w2 + w3 + rest);
    WordsFoundAt(h1, d1, w2 + w3 + rest);
    WordsFoundAt(h2, d2, w3 + rest);
    WordsFoundAt(h2 + w2, d3, rest);
  }

  lemma Normal32RoundTrip(data: u32, rest: seq<byte>)
    ensures ParseOne(Encode(Normal32(data)) + rest) == Some(Normal32(data))
  {
    LongWordsFoundAt([NORMAL32], data, rest);
  }

  lemma AsyncRoundTrip(at: i32, siocnt: u16, rcnt: u16, finish: i32, rest: seq<byte>)
    ensures ParseOne(Encode(Async(at, siocnt, rcnt, finish)) + rest) == Some(Async(at, siocnt, rcnt, finish))
  {
    var a, s, r, f := U32(Bits(at)), U16(siocnt), U16(rcnt), U32(Bits(finish));
    var b := [ASYNC] + a + s + r + f + rest;
    var h1 := [ASYNC] + a;
    var h2 := h1 + s;
    assert b == [ASYNC] + a + (s + r + f + rest);
    assert b == h1 + s + (r + f + rest);
    assert b == h2 + r + (f + rest);
    assert b == (h2 + r) + f + rest;
    LongWordsFoundAt([ASYNC], Bits(at), s + r + f + rest);
    WordsFoundAt(h1, siocnt, r + f + rest);
    WordsFoundAt(h2, rcnt, f + rest);
    LongWordsFoundAt(h2 + r, Bits(finish), rest);
  }

  lemma EncodeSize(r: Record)
    ensures Encode(r) != [] && |Encode(r)| == Size(Encode(r)[0]) > 0
  {
  }

  /** What was written is read back, whatever follows it. */
  lemma ParseOneEncode(r: Record, rest: seq<byte>)
    ensures Encode(r) != [] && Size(Encode(r)[0]) == |Encode(r)|
    ensures ParseOne(Encode(r) + rest) == Some(r)
    ensures (Encode(r) + rest)[|Encode(r)|..] == rest
  {
    EncodeSize(r);
    match r
    case SetMode(siocnt, rcnt) => SetModeRoundTrip(siocnt, rcnt, rest);
    case Multi(d0, d1, d2, d3) => MultiRoundTrip(d0, d1, d2, d3, rest);
    case Normal32(data) => Normal32RoundTrip(data, rest);
    case Async(at, siocnt, rcnt, finish) => AsyncRoundTrip(at, siocnt, rcnt, finish, rest);
    case _ =>
  }

  /** What is read is what those bytes were written from. */
  lemma EncodeParseOne(b: seq<byte>)
    requires b != [] && ParseOne(b).Some?
    ensures 0 < Size(b[0]) <= |b| && Encode(ParseOne(b).value) == b[..Size(b[0])]
  {
    var tag := b[0];
    assert b[..1] == [tag];
    if tag == SET_MODE {
      ReadU16Inverts(b, 1);
      ReadU16Inverts(b, 3);
      assert b[..5] == b[..1] + b[1..3] + b[3..5];
    } else if tag == MULTI {
      ReadU16Inverts(b, 1);
      ReadU16Inverts(b, 3);
      ReadU16Inverts(b, 5);
      ReadU16Inverts(b, 7);
      assert b[..9] == b[..1] + b[1..3] + b[3..5] + b[5..7] + b[7..9];
    } else if tag == NORMAL32 {
      ReadU32Inverts(b, 1);
      assert b[..5] == b[..1] + b[1..5];
    } else if tag == ASYNC {
      AsyncInverts(b);
    }
  }

  lemma AsyncInverts(b: seq<byte>)
    requires |b| >= 13 && b[0] == ASYNC
    ensures Encode(ParseOne(b).value) == b[..13]
  {
    hide U16, U32, ReadU16, ReadU32;
    ReadU32Inverts(b, 1);
    ReadU16Inverts(b, 5);
    ReadU16Inverts(b, 7);
    ReadU32Inverts(b, 9);
    assert b[..13] == [b[0]] + b[1..5] + b[5..7] + b[7..9] + b[9..13];
  }

  /** Decoding inverts encoding, and nothing but the encoding of some records is decoded. */
  lemma {:induction false} ParseInvertsEncode(records: seq<Record>)
    ensures Parse(EncodeAll(records)) == Some(records)
  {
    if records != [] {
      hide Encode, ParseOne, Size;
      ParseOneEncode(records[0], EncodeAll(records[1..]));
      ParseInvertsEncode(records[1..]);
      var b := EncodeAll(records);
      assert b[0] == Encode(records[0])[0];
      assert records == [records[0]] + records[1..];
    }
  }

  lemma {:induction false} OnlyEncodingsParse(b: seq<byte>)
    ensures Parse(b).Some? <==> exists records :: b == EncodeAll(records)
    ensures Parse(b).Some? ==> b == EncodeAll(Parse(b).value)
    decreases |b|
  {
    hide Encode, ParseOne, Size;
    if Parse(b).Some? && b != [] {
      EncodeParseOne(b);
      OnlyEncodingsParse(b[Size(b[0])..]);
      var records := Parse(b).value;
      assert records[1..] == Parse(b[Size(b[0])..]).value;
      assert b == b[..Size(b[0])] + b[Size(b[0])..];
    }
    if Parse(b).Some? {
      assert b == EncodeAll(Parse(b).value);
    }
    if records :| b == EncodeAll(records) {
      ParseInvertsEncode(records);
    }
  }

  /** A log, however much is thrown at it, is within its limit and made of whole records: those
      that fit, in order. */
  lemma {:induction false} LogIsWholeRecords(log: seq<byte>, records: seq<Record>)
    requires |log| <= LINK_LOG_MAX_BYTES
    ensures |AppendAll(log, records)| <= LINK_LOG_MAX_BYTES
    ensures AppendAll(log, records) == log + EncodeAll(Kept(|log|, records))
    decreases |records|
  {
    hide Encode;
    if records != [] {
      LogIsWholeRecords(Append(log, records[0]), records[1..]);
    }
  }

  /** Every log parses, to exactly the records kept. */
  lemma EveryLogParses(records: seq<Record>)
    ensures Parse(AppendAll([], records)) == Some(Kept(0, records))
  {
    hide Encode, ParseOne, Size, Kept, AppendAll, EncodeAll, Parse;
    LogIsWholeRecords([], records);
    assert [] + EncodeAll(Kept(0, records)) == EncodeAll(Kept(0, records));
    ParseInvertsEncode(Kept(0, records));
  }

  /** Nothing is dropped while everything fits. */
  lemma {:induction false} AllKeptWhenItFits(size: nat, records: seq<Record>)
    requires size + |EncodeAll(records)| <= LINK_LOG_MAX_BYTES
    ensures Kept(size, records) == records
    decreases |records|
  {
    hide Encode;
    if records != [] {
      AllKeptWhenItFits(size + |Encode(records[0])|, records[1..]);
    }
  }
}
