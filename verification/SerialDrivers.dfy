/**
  The two drivers as the objects they are: the log wrappers, the log reader and the replay driver,
  each changing its own fields, each held to the functions of `SerialReplay`.
 */
module SerialDrivers {
  import opened Words
  import opened Wrappers
  import opened SerialLog
  import opened SerialReplay

  /** When the transfer in progress completes, if one is scheduled. */
  datatype Registers = Registers(siocnt: u16, rcnt: u16, completes: Option<u32>)

  class LinkRecorder {
    var lastDevices: int
    var lastId: int
    var log: seq<byte>
    var frameStart: u32

    function Value(): Recorder
      reads this
    {
      Recorder(Seat(lastDevices, lastId), log)
    }

    /** The cable goes in. */
    constructor Attach(devices: nat, id: nat, now: u32)
      ensures forall before :: Value() == Note(before, Plugged(devices, id))
    {
      lastDevices, lastId, log, frameStart := -1, -1, [], now;
      new;
      LogPush([ATTACH]);
      LogConfigIfChanged(devices, id);
    }

    method LogPush(bytes: seq<byte>)
      modifies `log
      ensures log == if |old(log)| + |bytes| <= LINK_LOG_MAX_BYTES then old(log) + bytes else old(log)
    {
      if |log| + |bytes| > LINK_LOG_MAX_BYTES { return; }
      log := log + bytes;
    }

    method LogU16(v: u16)
      modifies `log
      ensures log == old(log) + U16(v)
    {
      log := log + [v % 0x100];
      log := log + [v / 0x100];
    }

    method LogU32(v: u32)
      modifies `log
      ensures log == old(log) + U32(v)
    {
      LogU16(v % 0x1_0000);
      LogU16(v / 0x1_0000);
    }

    method LogConfigIfChanged(devices: nat, id: nat)
      modifies `log, `lastDevices, `lastId
      ensures Value() == CheckSeat(old(Value()), Seat(devices, id))
      ensures lastDevices == devices && lastId == id
    {
      if devices != lastDevices || id != lastId {
        lastDevices, lastId := devices, id;
        LogPush([CONFIG, devices % 0x100, id % 0x100]);
      }
    }

    method ConnectedDevices(devices: nat, id: nat) returns (told: int)
      modifies `log, `lastDevices, `lastId
      ensures Value() == Note(old(Value()), AskedDevices(devices, id))
      ensures DevicesAre(told) == LiveReply(AskedDevices(devices, id))
    {
      LogConfigIfChanged(devices, id);
      told := lastDevices;
    }

    method DeviceId(devices: nat, id: nat) returns (told: int)
      modifies `log, `lastDevices, `lastId
      ensures Value() == Note(old(Value()), AskedId(devices, id))
      ensures IdIs(told) == LiveReply(AskedId(devices, id))
    {
      LogConfigIfChanged(devices, id);
      told := lastId;
    }

    method LogSetMode(siocnt: u16, rcnt: u16)
      modifies `log
      ensures Value() == Note(old(Value()), Answered(SetMode(siocnt, rcnt)))
    {
      if |log| + 5 <= LINK_LOG_MAX_BYTES {
        log := log + [SET_MODE];
        LogU16(siocnt);
        LogU16(rcnt);
        assert log == old(log) + Encode(SetMode(siocnt, rcnt));
      }
    }

    method LogStart(ok: bool)
      modifies `log
      ensures Value() == Note(old(Value()), Answered(Start(if ok then 1 else 0)))
    {
      LogPush([START, if ok then 1 else 0]);
    }

    method LogMultiplayer(data: seq<u16>)
      requires |data| == 4
      modifies `log
      ensures Value() == Note(old(Value()), Answered(Multi(data[0], data[1], data[2], data[3])))
    {
      if |log| + 9 <= LINK_LOG_MAX_BYTES {
        log := log + [MULTI];
        for i := 0 to 4
          invariant log == old(log) + [MULTI] + Words16(data[..i])
          invariant lastDevices == old(lastDevices) && lastId == old(lastId)
        {
          LogU16(data[i]);
          assert data[..i + 1][..i] == data[..i];
        }
        assert data[..4] == [data[0], data[1], data[2], data[3]];
        FourWords(data[0], data[1], data[2], data[3]);
        assert log == old(log) + Encode(Multi(data[0], data[1], data[2], data[3]));
      }
    }

    method LogNormal8(data: byte)
      modifies `log
      ensures Value() == Note(old(Value()), Answered(Normal8(data)))
    {
      LogPush([NORMAL8, data]);
    }

    method LogNormal32(data: u32)
      modifies `log
      ensures Value() == Note(old(Value()), Answered(Normal32(data)))
    {
      if |log| + 5 <= LINK_LOG_MAX_BYTES {
        log := log + [NORMAL32];
        LogU32(data);
        assert log == old(log) + Encode(Normal32(data));
      }
    }

    /** The driver's own event: logged when it changed a register, or (re)scheduled the transfer. */
    method LogEvent(when: u32, before: Registers, after: Registers)
      modifies `log
      ensures var at := Signed(Since(when, frameStart));
              var rescheduled := after.completes.Some? && after.completes != before.completes;
              Value() == if before.siocnt != after.siocnt || before.rcnt != after.rcnt || rescheduled then
                Note(old(Value()), Changed(Async(at, after.siocnt, after.rcnt,
                  if rescheduled then Signed(Since(after.completes.value, frameStart)) else LINK_LOG_NO_FINISH)))
              else old(Value())
    {
      hide Append, Since, Signed;
      var at := Signed(Since(when, frameStart));
      var rescheduled := after.completes.Some?
                         && (before.completes.None? || after.completes.value != before.completes.value);
      if after.siocnt != before.siocnt || after.rcnt != before.rcnt || rescheduled {
        LogAsync(at, after.siocnt, after.rcnt,
                 if rescheduled then Signed(Since(after.completes.value, frameStart)) else LINK_LOG_NO_FINISH);
      }
    }

    method LogAsync(at: i32, siocnt: u16, rcnt: u16, finish: i32)
      modifies `log
      ensures log == Append(old(log), Async(at, siocnt, rcnt, finish))
    {
      hide U16, U32, Encode, Bits;
      AsyncParts(at, siocnt, rcnt, finish);
      if |log| + 13 <= LINK_LOG_MAX_BYTES {
        log := log + [ASYNC];
        LogU32(Bits(at));
        LogU16(siocnt);
        LogU16(rcnt);
        LogU32(Bits(finish));
        Joined(old(log), [ASYNC], U32(Bits(at)), U16(siocnt), U16(rcnt), U32(Bits(finish)));
      }
    }

    /** The cable comes out. */
    method Detach()
      modifies `log
      ensures Value() == Note(old(Value()), Unplugged)
    {
      LogPush([DETACH]);
    }

    method FrameStarted(now: u32)
      modifies `frameStart
      ensures frameStart == now
    {
      frameStart := now;
    }

    method TakeLog(capacity: nat) returns (needed: nat, out: seq<byte>)
      modifies `log
      ensures (Value(), needed, out) == SerialReplay.TakeLog(old(Value()), capacity)
    {
      needed := |log|;
      if needed > capacity { return needed, []; }
      out := log;
      if needed > 0 { log := []; }
    }
  }

  lemma AsyncParts(at: i32, siocnt: u16, rcnt: u16, finish: i32)
    ensures |Encode(Async(at, siocnt, rcnt, finish))| == 13
    ensures Encode(Async(at, siocnt, rcnt, finish))
            == [ASYNC] + U32(Bits(at)) + U16(siocnt) + U16(rcnt) + U32(Bits(finish))
  {
  }

  lemma Joined(log: seq<byte>, a: seq<byte>, b: seq<byte>, c: seq<byte>, d: seq<byte>, e: seq<byte>)
    ensures log + a + b + c + d + e == log + (a + b + c + d + e)
  {
  }

  function Words16(data: seq<u16>): seq<byte>
  {
    if data == [] then [] else Words16(data[..|data| - 1]) + U16(data[|data| - 1])
  }

  lemma FourWords(a: u16, b: u16, c: u16, d: u16)
    ensures Words16([a, b, c, d]) == U16(a) + U16(b) + U16(c) + U16(d)
  {
    assert [a, b, c, d][..3] == [a, b, c] && [a, b, c][..2] == [a, b] && [a, b][..1] == [a];
    assert Words16([a]) == U16(a);
    assert Words16([a, b]) == U16(a) + U16(b);
    assert Words16([a, b, c]) == U16(a) + U16(b) + U16(c);
  }

  /** Cycles from one 32-bit instant to another. */
  function Since(when: u32, start: u32): u32 { (when - start) % 0x1_0000_0000 }

  // ---- Reading a log ---------------------------------------------------------------------------

  class LogReader {
    const data: seq<byte>
    var at: nat
    var ok: bool

    ghost predicate Valid() reads this { at <= |data| }

    constructor (bytes: seq<byte>)
      ensures Valid() && data == bytes && at == 0 && ok
    {
      data, at, ok := bytes, 0, true;
    }

    method U8() returns (v: byte)
      requires Valid()
      modifies this
      ensures Valid()
      ensures if old(at) < |data| then v == data[old(at)] && at == old(at) + 1 && ok == old(ok)
              else v == 0 && !ok && at == old(at)
    {
      if |data| - at < 1 {
        ok := false;
        return 0;
      }
      v := data[at];
      at := at + 1;
    }

    method ReadWord() returns (v: u16)
      requires Valid()
      modifies this
      ensures Valid() && old(at) <= at
      ensures if old(at) + 2 <= |data| then v == ReadU16(data, old(at)) && at == old(at) + 2 && ok == old(ok) else !ok
    {
      var lo := U8();
      var hi := U8();
      v := lo as int + hi as int * 0x100;
    }

    method ReadLongWord() returns (v: u32)
      requires Valid()
      modifies this
      ensures Valid() && old(at) <= at
      ensures if old(at) + 4 <= |data| then v == ReadU32(data, old(at)) && at == old(at) + 4 && ok == old(ok) else !ok
    {
      var lo := ReadWord();
      var hi := ReadWord();
      v := lo as int + hi as int * 0x1_0000;
    }

    /** The record whose tag was just read: its fields are read one by one, and reading past the end,
        like an unknown tag, only shows in `ok`. */
    method ReadFields(tag: byte) returns (r: Record)
      requires Valid() && ok && 0 < at && data[at - 1] == tag
      modifies this
      ensures Valid() && old(at) <= at
      ensures var parsed := ParseOne(data[old(at) - 1..]);
              if ok then parsed == Some(r) && at == old(at) - 1 + Size(tag) else parsed == None
    {
      ghost var start := at - 1;
      ghost var b := data[start..];
      assert b[0] == tag;
      var a32, b32: u32;
      var w0, w1, w2, w3: u16;
      var d0, d1: byte;
      r := SerialLog.Attach;
      if tag == CONFIG {
        d0 := U8();
        d1 := U8();
        r := Config(d0, d1);
      } else if tag == SET_MODE {
        w0 := ReadWord();
        w1 := ReadWord();
        r := SetMode(w0, w1);
      } else if tag == START {
        d0 := U8();
        r := Start(d0);
      } else if tag == MULTI {
        w0 := ReadWord();
        w1 := ReadWord();
        w2 := ReadWord();
        w3 := ReadWord();
        r := Multi(w0, w1, w2, w3);
      } else if tag == NORMAL8 {
        d0 := U8();
        r := Normal8(d0);
      } else if tag == NORMAL32 {
        a32 := ReadLongWord();
        r := Normal32(a32);
      } else if tag == ASYNC {
        a32 := ReadLongWord();
        w0 := ReadWord();
        w1 := ReadWord();
        b32 := ReadLongWord();
        r := Async(Signed(a32), w0, w1, Signed(b32));
      } else if tag == ATTACH {
      } else if tag == DETACH {
        r := SerialLog.Detach;
      } else {
        ok := false;
      }
    }
  }

  // ---- The replay driver -----------------------------------------------------------------------

  class ReplayDriver {
    var attached: bool
    var devices: byte
    var id: byte
    var sync: seq<Record>
    var syncHead: nat
    var asyncEntries: seq<Record>
    var asyncHead: nat
    var misses: nat

    function Value(): Replay
      reads this
    {
      Replay(attached, devices, id, sync, syncHead, asyncEntries, asyncHead, misses)
    }

    constructor ()
      ensures Value() == ABSENT
    {
      attached, devices, id, misses := false, 0, 0, 0;
      sync, syncHead, asyncEntries, asyncHead := [], 0, [], 0;
    }

    method Attach()
      modifies this
      ensures Value() == AttachReplay(old(Value()))
    {
      if attached { return; }
      devices, id, misses := 0, 0, 0;
      sync, syncHead, asyncEntries, asyncHead := [], 0, [], 0;
      attached := true;
    }

    method Detach()
      modifies this
      ensures Value() == DetachReplay(old(Value()))
    {
      if !attached { return; }
      attached := false;
      sync, syncHead, asyncEntries, asyncHead := [], 0, [], 0;
    }

    method ApplySeats()
      requires Valid(Value())
      modifies this
      ensures Value() == ApplyConfig(old(Value()))
    {
      while syncHead < |sync| && sync[syncHead].Config?
        invariant Valid(Value())
        invariant ApplyConfig(Value()) == ApplyConfig(old(Value()))
        decreases |sync| - syncHead
      {
        devices, id := sync[syncHead].devices, sync[syncHead].id;
        syncHead := syncHead + 1;
      }
    }

    method Next(call: Call) returns (entry: Option<Record>)
      requires Valid(Value())
      modifies this
      ensures (Value(), entry) == NextEntry(old(Value()), call)
    {
      if syncHead < |sync| && IsAnswer(sync[syncHead]) && CallOf(sync[syncHead]) == call {
        entry := Some(sync[syncHead]);
        syncHead := syncHead + 1;
      } else {
        misses := misses + 1;
        entry := None;
      }
    }

    method ConnectedDevices() returns (told: int)
      requires Valid(Value())
      modifies this
      ensures (Value(), DevicesAre(told)) == Do(old(Value()), GetDevices)
    {
      ApplySeats();
      told := devices;
    }

    method DeviceId() returns (told: int)
      requires Valid(Value())
      modifies this
      ensures (Value(), IdIs(told)) == Do(old(Value()), GetId)
    {
      ApplySeats();
      told := id;
    }

    /** The registers as the game sees them, before and after. */
    method SetModeCall(siocnt: u16, rcnt: u16) returns (siocnt': u16, rcnt': u16)
      requires Valid(Value())
      modifies this
      ensures Value() == Do(old(Value()), CallSetMode).0
      ensures match Do(old(Value()), CallSetMode).1
              case RegistersSet(s, r) => siocnt' == s && rcnt' == r
              case _ => siocnt' == siocnt && rcnt' == rcnt
    {
      ApplySeats();
      var entry := Next(CallSetMode);
      if entry.Some? && entry.value.SetMode? {
        return entry.value.siocnt, entry.value.rcnt;
      }
      return siocnt, rcnt;
    }

    method StartCall() returns (ok: bool)
      requires Valid(Value())
      modifies this
      ensures (Value(), Began(ok)) == Do(old(Value()), CallStart)
    {
      ApplySeats();
      var entry := Next(CallStart);
      ok := entry.Some? && entry.value.Start? && entry.value.ok != 0;
    }

    method FinishMultiplayer() returns (d0: u16, d1: u16, d2: u16, d3: u16)
      requires Valid(Value())
      modifies this
      ensures (Value(), Words(d0, d1, d2, d3)) == Do(old(Value()), CallMulti)
    {
      ApplySeats();
      var entry := Next(CallMulti);
      if entry.Some? && entry.value.Multi? {
        return entry.value.data0, entry.value.data1, entry.value.data2, entry.value.data3;
      }
      return 0xFFFF, 0xFFFF, 0xFFFF, 0xFFFF;
    }

    method FinishNormal8() returns (data: byte)
      requires Valid(Value())
      modifies this
      ensures (Value(), Byte(data)) == Do(old(Value()), CallNormal8)
    {
      ApplySeats();
      var entry := Next(CallNormal8);
      data := if entry.Some? && entry.value.Normal8? then entry.value.data8 else 0xFF;
    }

    method FinishNormal32() returns (data: u32)
      requires Valid(Value())
      modifies this
      ensures (Value(), Word(data)) == Do(old(Value()), CallNormal32)
    {
      ApplySeats();
      var entry := Next(CallNormal32);
      data := if entry.Some? && entry.value.Normal32? then entry.value.data32 else 0xFFFF_FFFF;
    }

    method AsyncEvent() returns (reply: Reply)
      requires Valid(Value())
      modifies this
      ensures (Value(), reply) == Fire(old(Value()))
    {
      reply := Silence;
      if asyncHead < |asyncEntries| {
        var entry := asyncEntries[asyncHead];
        asyncHead := asyncHead + 1;
        reply := ChangeMade(entry.siocnt, entry.rcnt, entry.finish);
      }
    }

    /** Parse first, apply after: a log that does not parse changes nothing. */
    method Queue(data: seq<byte>, liveCable: bool) returns (code: nat)
      requires Valid(Value())
      modifies this
      ensures (Value(), code) == QueueLog(old(Value()), data, liveCable)
    {
      var ok, newSync, newAsync, detach := ParseLog(data);
      if !ok { return 0; }
      if liveCable { return 0; }
      Attach();
      Discard();
      sync, syncHead := newSync, 0;
      asyncEntries, asyncHead := newAsync, 0;
      return if detach then 2 else 1;
    }

    /** What was never asked for. */
    method Discard()
      requires Valid(Value())
      modifies this
      ensures Value() == Drain(old(Value()))
    {
      while syncHead < |sync|
        invariant Valid(Value())
        invariant Drain(Value()) == Drain(old(Value()))
      {
        if sync[syncHead].Config? {
          devices, id := sync[syncHead].devices, sync[syncHead].id;
        } else {
          misses := misses + 1;
        }
        syncHead := syncHead + 1;
      }
    }

    static method ParseLog(data: seq<byte>) returns (ok: bool, sync: seq<Record>, async: seq<Record>, detach: bool)
      ensures ok <==> Parse(data).Some?
      ensures ok ==> var records := Parse(data).value;
                     sync == SyncOf(records) && async == AsyncOf(records) && (detach <==> SerialLog.Detach in records)
    {
      hide Parse, ParseOne, Size, SyncOf, AsyncOf, Continues;
      sync, async, detach := [], [], false;
      NoneRead(data);
      var reader := new LogReader(data);
      ghost var done: seq<Record> := [];
      while reader.at < |reader.data| && reader.ok
        invariant reader.Valid() && reader.data == data && fresh(reader)
        invariant reader.ok ==> Continues(data, done, reader.at)
        invariant !reader.ok ==> Parse(data).None?
        invariant reader.ok ==> sync == SyncOf(done) && async == AsyncOf(done) && (detach <==> SerialLog.Detach in done)
        decreases |data| - reader.at, reader.ok
      {
        ghost var start := reader.at;
        var tag := reader.U8();
        var r := reader.ReadFields(tag);
        OneMore(data, done, start);
        if reader.ok {
          OneMorePart(done, r);
          done := done + [r];
          if r.Async? {
            async := async + [r];
          } else if r.Detach? {
            detach := true;
          } else if !r.Attach? {
            sync := sync + [r];
          }
        }
      }
      ok := reader.ok;
      if ok {
        AllRead(data, done);
      }
    }
  }

  /** Having read `done`, what the whole parses to depends on the rest alone. */
  predicate Continues(data: seq<byte>, done: seq<Record>, at: nat)
  {
    at <= |data| &&
    match Parse(data[at..])
    case None => Parse(data).None?
    case Some(rest) => Parse(data) == Some(done + rest)
  }

  lemma NoneRead(data: seq<byte>)
    ensures Continues(data, [], 0) && SyncOf([]) == [] && AsyncOf([]) == []
  {
    assert data[0..] == data;
    if Parse(data).Some? {
      assert [] + Parse(data).value == Parse(data).value;
    }
  }

  lemma AllRead(data: seq<byte>, done: seq<Record>)
    requires Continues(data, done, |data|)
    ensures Parse(data) == Some(done)
  {
    assert Parse(data[|data|..]) == Some([]);
    assert done + [] == done;
  }

  lemma OneMorePart(done: seq<Record>, r: Record)
    ensures SyncOf(done + [r]) == SyncOf(done) + SyncPart(r) && AsyncOf(done + [r]) == AsyncOf(done) + AsyncPart(r)
  {
    hide SyncPart, AsyncPart;
    SyncJoins(done, [r]);
    assert [r][1..] == [];
    assert SyncOf([r]) == SyncPart(r) + SyncOf([]) && AsyncOf([r]) == AsyncPart(r) + AsyncOf([]);
  }

  lemma OneMore(data: seq<byte>, done: seq<Record>, at: nat)
    requires at < |data| && Continues(data, done, at)
    ensures ParseOne(data[at..]).None? ==> Parse(data).None?
    ensures ParseOne(data[at..]).Some? ==>
              at + Size(data[at]) <= |data| && Continues(data, done + [ParseOne(data[at..]).value], at + Size(data[at]))
  {
    hide ParseOne, Encode;
    var b := data[at..];
    assert b[0] == data[at];
    if ParseOne(b).Some? {
      EncodeParseOne(b);
      assert b[Size(b[0])..] == data[at + Size(data[at])..];
      var r := ParseOne(b).value;
      if Parse(b).Some? {
        assert done + Parse(b).value == done + [r] + Parse(b[Size(b[0])..]).value;
      }
    }
  }
}
