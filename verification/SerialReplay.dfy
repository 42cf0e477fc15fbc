/**
  Recording what the cable's driver did to a game, and answering the game from that recording.

  `Recorder` is the logging side (the wrappers around the lockstep driver), `Replay` the driver that
  takes its place. The theorems say what a replayed game is told compared with what the recorded
  one was, and account for every entry when the game asks for something else instead.
 */
module SerialReplay {
  import opened Words
  import opened Wrappers
  import opened SerialLog

  /** How many consoles the driver sees, and which of them this one is. */
  datatype Seat = Seat(devices: int, id: int)

  const NO_SEAT := Seat(-1, -1)

  function ByteSeat(s: Seat): Seat { Seat(s.devices % 0x100, s.id % 0x100) }

  predicate IsAnswer(r: Record) { r.SetMode? || r.Start? || r.Multi? || r.Normal8? || r.Normal32? }

  type Answer = r: Record | IsAnswer(r) witness Start(0)
  type Change = r: Record | r.Async? witness Async(0, 0, 0, 0)

  /** What happens while a game is recorded: the cable goes in, the game asks the driver a question (with
      what the driver has to say then), the game is given an answer, the driver changes something on
      its own, the cable comes out; and what the game calls for when there is no driver to hear it. */
  datatype Effect =
    | Plugged(devices: nat, id: nat)
    | AskedDevices(devices: nat, id: nat)
    | AskedId(devices: nat, id: nat)
    | Answered(answer: Answer)
    | Changed(change: Change)
    | Unplugged
    | Uncabled(call: Call)

  predicate Asks(e: Effect) { e.AskedDevices? || e.AskedId? }

  // ---- Recording -------------------------------------------------------------------------------

  datatype Recorder = Recorder(last: Seat, log: seq<byte>)

  function SeatRecord(s: Seat): Record { Config(ByteSeat(s).devices, ByteSeat(s).id) }

  /** The new seat is remembered even when there is no room left to log it. */
  function CheckSeat(r: Recorder, s: Seat): Recorder
  {
    if s == r.last then r else Recorder(s, Append(r.log, SeatRecord(s)))
  }

  function Note(r: Recorder, e: Effect): Recorder
  {
    match e
    case Plugged(devices, id) => CheckSeat(Recorder(NO_SEAT, Append([], Attach)), Seat(devices, id))
    case AskedDevices(devices, id) => CheckSeat(r, Seat(devices, id))
    case AskedId(devices, id) => CheckSeat(r, Seat(devices, id))
    case Answered(answer) => r.(log := Append(r.log, answer))
    case Changed(change) => r.(log := Append(r.log, change))
    case Unplugged => r.(log := Append(r.log, Detach))
    case Uncabled(_) => r
  }

  function NoteAll(r: Recorder, effects: seq<Effect>): Recorder
    decreases |effects|
  {
    if effects == [] then r else NoteAll(Note(r, effects[0]), effects[1..])
  }

  /** The log is handed over, and forgotten, only when the buffer is big enough. */
  function TakeLog(r: Recorder, capacity: nat): (Recorder, nat, seq<byte>)
  {
    if |r.log| > capacity then (r, |r.log|, []) else (r.(log := []), |r.log|, r.log)
  }

  // ---- Answering -------------------------------------------------------------------------------

  datatype Call = GetDevices | GetId | CallSetMode | CallStart | CallMulti | CallNormal8 | CallNormal32

  datatype Reply =
    | DevicesAre(count: int)
    | IdIs(number: int)
    | RegistersSet(siocnt: u16, rcnt: u16)
    | RegistersKept
    | Began(ok: bool)
    | Words(word0: u16, word1: u16, word2: u16, word3: u16)
    | Byte(value8: byte)
    | Word(value32: u32)
    | ChangeMade(siocnt: u16, rcnt: u16, finish: i32)
    | Silence

  datatype Replay = Replay(
    attached: bool,
    devices: byte, id: byte,
    sync: seq<Record>, head: nat,
    changes: seq<Record>, changeHead: nat,
    misses: nat)

  predicate Valid(p: Replay)
  {
    && p.head <= |p.sync| && p.changeHead <= |p.changes|
    && (forall k :: 0 <= k < |p.sync| ==> p.sync[k].Config? || IsAnswer(p.sync[k]))
    && (forall k :: 0 <= k < |p.changes| ==> p.changes[k].Async?)
  }

  function Pending(p: Replay): seq<Record> requires Valid(p) { p.sync[p.head..] }
  function PendingChanges(p: Replay): seq<Record> requires Valid(p) { p.changes[p.changeHead..] }
  function SeatOf(p: Replay): Seat { Seat(p.devices, p.id) }

  const FRESH := Replay(true, 0, 0, [], 0, [], 0, 0)
  const ABSENT := Replay(false, 0, 0, [], 0, [], 0, 0)

  function ApplyConfig(p: Replay): Replay
    requires Valid(p)
    ensures Valid(ApplyConfig(p))
    decreases |p.sync| - p.head
  {
    if p.head < |p.sync| && p.sync[p.head].Config? then
      ApplyConfig(p.(devices := p.sync[p.head].devices, id := p.sync[p.head].id, head := p.head + 1))
    else p
  }

  /** The call an answer belongs to. */
  function CallOf(r: Answer): Call
  {
    match r
    case SetMode(_, _) => CallSetMode
    case Start(_) => CallStart
    case Multi(_, _, _, _) => CallMulti
    case Normal8(_) => CallNormal8
    case Normal32(_) => CallNormal32
  }

  function ReplyOf(r: Answer): Reply
  {
    match r
    case SetMode(siocnt, rcnt) => RegistersSet(siocnt, rcnt)
    case Start(ok) => Began(ok != 0)
    case Multi(d0, d1, d2, d3) => Words(d0, d1, d2, d3)
    case Normal8(data) => Byte(data)
    case Normal32(data) => Word(data)
  }

  /** What a call is told when the log holds nothing for it: as if nobody answered. */
  function MissReply(c: Call): Reply
    requires c != GetDevices && c != GetId
  {
    match c
    case CallSetMode => RegistersKept
    case CallStart => Began(false)
    case CallMulti => Words(0xFFFF, 0xFFFF, 0xFFFF, 0xFFFF)
    case CallNormal8 => Byte(0xFF)
    case CallNormal32 => Word(0xFFFF_FFFF)
  }

  /** The next entry when it answers `c`; otherwise it stays, and the call is a miss. */
  function NextEntry(p: Replay, c: Call): (Replay, Option<Answer>)
    requires Valid(p)
  {
    if p.head < |p.sync| && IsAnswer(p.sync[p.head]) && CallOf(p.sync[p.head]) == c then
      (p.(head := p.head + 1), Some(p.sync[p.head]))
    else (p.(misses := p.misses + 1), None)
  }

  function Do(p: Replay, c: Call): (r: (Replay, Reply))
    requires Valid(p)
    ensures Valid(r.0)
  {
    var q := ApplyConfig(p);
    if c == GetDevices then (q, DevicesAre(q.devices))
    else if c == GetId then (q, IdIs(q.id))
    else
      var (next, entry) := NextEntry(q, c);
      (next, if entry.Some? then ReplyOf(entry.value) else MissReply(c))
  }

  /** The driver's own event: the next recorded change is made. */
  function Fire(p: Replay): (Replay, Reply)
    requires Valid(p)
  {
    if p.changeHead < |p.changes| then
      var c := p.changes[p.changeHead];
      (p.(changeHead := p.changeHead + 1), ChangeMade(c.siocnt, c.rcnt, c.finish))
    else (p, Silence)
  }

  function AttachReplay(p: Replay): Replay
  {
    if p.attached then p else FRESH
  }

  function DetachReplay(p: Replay): Replay
  {
    if p.attached then p.(attached := false, sync := [], head := 0, changes := [], changeHead := 0) else p
  }

  /** What the game never asked for: seats still count, answers are misses. */
  function Drain(p: Replay): Replay
    requires Valid(p)
    ensures Valid(Drain(p))
    decreases |p.sync| - p.head
  {
    if p.head == |p.sync| then p
    else if p.sync[p.head].Config? then
      Drain(p.(devices := p.sync[p.head].devices, id := p.sync[p.head].id, head := p.head + 1))
    else Drain(p.(misses := p.misses + 1, head := p.head + 1))
  }

  /** One frame's log: 0 when it does not parse or a live cable is in, 2 when the cable came out
      during the recorded frame, else 1. */
  function QueueLog(p: Replay, bytes: seq<byte>, liveCable: bool): (Replay, nat)
    requires Valid(p)
  {
    match Parse(bytes)
    case None => (p, 0)
    case Some(records) =>
      if liveCable then (p, 0)
      else
        var d := Drain(AttachReplay(p));
        (d.(sync := SyncOf(records), head := 0, changes := AsyncOf(records), changeHead := 0),
         if Detach in records then 2 else 1)
  }

  lemma {:induction false} SyncAndAsyncKinds(records: seq<Record>)
    ensures forall k :: 0 <= k < |SyncOf(records)| ==> SyncOf(records)[k].Config? || IsAnswer(SyncOf(records)[k])
    ensures forall k :: 0 <= k < |AsyncOf(records)| ==> AsyncOf(records)[k].Async?
  {
    if records != [] {
      SyncAndAsyncKinds(records[1..]);
    }
  }

  lemma QueueKeepsValid(p: Replay, bytes: seq<byte>, liveCable: bool)
    requires Valid(p)
    ensures Valid(QueueLog(p, bytes, liveCable).0)
  {
    if Parse(bytes).Some? {
      SyncAndAsyncKinds(Parse(bytes).value);
    }
  }

  // ---- What is at the front --------------------------------------------------------------------

  /** What is left when the seats in front are taken off, and the seat they leave. */
  function Strip(entries: seq<Record>): seq<Record>
  {
    if entries != [] && entries[0].Config? then Strip(entries[1..]) else entries
  }

  function Front(entries: seq<Record>, seat: Seat): Seat
    decreases |entries|
  {
    if entries != [] && entries[0].Config? then Front(entries[1..], Seat(entries[0].devices, entries[0].id)) else seat
  }

  /** The seat left by all of them, and what else there is. */
  function LastSeat(entries: seq<Record>, seat: Seat): Seat
    decreases |entries|
  {
    if entries == [] then seat
    else LastSeat(entries[1..], if entries[0].Config? then Seat(entries[0].devices, entries[0].id) else seat)
  }

  function Answers(entries: seq<Record>): seq<Record>
  {
    if entries == [] then [] else (if entries[0].Config? then [] else [entries[0]]) + Answers(entries[1..])
  }

  lemma {:induction false} StripTwice(entries: seq<Record>, seat: Seat)
    ensures Strip(Strip(entries)) == Strip(entries)
    ensures Front(Strip(entries), seat) == seat
  {
    if entries != [] && entries[0].Config? {
      StripTwice(entries[1..], seat);
    }
  }

  lemma {:induction false} ApplyConfigStrips(p: Replay)
    requires Valid(p)
    ensures Pending(ApplyConfig(p)) == Strip(Pending(p))
    ensures SeatOf(ApplyConfig(p)) == Front(Pending(p), SeatOf(p))
    ensures ApplyConfig(p)
            == p.(devices := ApplyConfig(p).devices, id := ApplyConfig(p).id, head := ApplyConfig(p).head)
    decreases |p.sync| - p.head
  {
    if p.head < |p.sync| && p.sync[p.head].Config? {
      var q := p.(devices := p.sync[p.head].devices, id := p.sync[p.head].id, head := p.head + 1);
      assert Pending(p) == [p.sync[p.head]] + Pending(q);
      ApplyConfigStrips(q);
    }
  }

  lemma {:induction false} DrainTakesAll(p: Replay)
    requires Valid(p)
    ensures Pending(Drain(p)) == [] && SeatOf(Drain(p)) == LastSeat(Pending(p), SeatOf(p))
    ensures Drain(p).misses == p.misses + |Answers(Pending(p))|
    ensures Drain(p).attached == p.attached
    decreases |p.sync| - p.head
  {
    if p.head < |p.sync| {
      var e := p.sync[p.head];
      var q := if e.Config? then p.(devices := e.devices, id := e.id, head := p.head + 1)
      else p.(misses := p.misses + 1, head := p.head + 1);
      assert Pending(p) == [e] + Pending(q);
      DrainTakesAll(q);
    }
  }

  // ---- Faithfulness ----------------------------------------------------------------------------

  function Checked(last: Seat, s: Seat): seq<Record> { if s == last then [] else [SeatRecord(s)] }

  function SeatAfter(last: Seat, e: Effect): Seat
  {
    if e.Plugged? || Asks(e) then Seat(e.devices, e.id) else last
  }

  function WrittenFor(last: Seat, e: Effect): seq<Record>
  {
    match e
    case Plugged(devices, id) => [Attach] + Checked(NO_SEAT, Seat(devices, id))
    case AskedDevices(devices, id) => Checked(last, Seat(devices, id))
    case AskedId(devices, id) => Checked(last, Seat(devices, id))
    case Answered(answer) => [answer]
    case Changed(change) => [change]
    case Unplugged => [Detach]
    case Uncabled(_) => []
  }

  /** The records a frame makes, were there no limit. */
  function Written(last: Seat, effects: seq<Effect>): seq<Record>
    decreases |effects|
  {
    if effects == [] then [] else WrittenFor(last, effects[0]) + Written(SeatAfter(last, effects[0]), effects[1..])
  }

  function SeatAfterAll(last: Seat, effects: seq<Effect>): Seat
    decreases |effects|
  {
    if effects == [] then last else SeatAfterAll(SeatAfter(last, effects[0]), effects[1..])
  }

  predicate PluggedOnlyFirst(effects: seq<Effect>)
  {
    forall k :: 1 <= k < |effects| ==> !effects[k].Plugged?
  }

  lemma {:induction false} AppendAllJoins(log: seq<byte>, a: seq<Record>, b: seq<Record>)
    ensures AppendAll(log, a + b) == AppendAll(AppendAll(log, a), b)
    decreases |a|
  {
    if a == [] {
      assert a + b == b;
    } else {
      assert (a + b)[1..] == a[1..] + b;
      AppendAllJoins(Append(log, a[0]), a[1..], b);
    }
  }

  lemma NoteWrites(r: Recorder, e: Effect)
    requires e.Plugged? ==> r.log == []
    ensures Note(r, e) == Recorder(SeatAfter(r.last, e), AppendAll(r.log, WrittenFor(r.last, e)))
  {
    hide Encode;
    var w := WrittenFor(r.last, e);
    if e.Plugged? {
      assert w == [Attach, SeatRecord(Seat(e.devices, e.id))];
      assert w[1..] == [SeatRecord(Seat(e.devices, e.id))];
      assert AppendAll([], w) == AppendAll(Append([], Attach), w[1..]);
    }
  }

  /** The recorder's log is those records, one after another, as far as they fit. */
  lemma {:induction false} RecorderWrites(r: Recorder, effects: seq<Effect>)
    requires PluggedOnlyFirst(effects)
    requires effects != [] && effects[0].Plugged? ==> r.log == []
    ensures NoteAll(r, effects) == Recorder(SeatAfterAll(r.last, effects), AppendAll(r.log, Written(r.last, effects)))
    decreases |effects|
  {
    hide Note, WrittenFor, Append;
    if effects != [] {
      NoteWrites(r, effects[0]);
      RecorderWrites(Note(r, effects[0]), effects[1..]);
      AppendAllJoins(r.log, WrittenFor(r.last, effects[0]), Written(SeatAfter(r.last, effects[0]), effects[1..]));
    }
  }

  lemma {:induction false} SyncJoins(a: seq<Record>, b: seq<Record>)
    ensures SyncOf(a + b) == SyncOf(a) + SyncOf(b) && AsyncOf(a + b) == AsyncOf(a) + AsyncOf(b)
  {
    hide SyncPart, AsyncPart;
    if a == [] {
      assert a + b == b;
    } else {
      assert (a + b)[1..] == a[1..] + b;
      SyncJoins(a[1..], b);
    }
  }

  // ---- What is kept ----------------------------------------------------------------------------

  /** The recorder within a frame: the size of its log, the seat it last saw, and the one last logged,
      as bytes. The two differ once a seat found no room. */
  datatype Track = Track(size: nat, last: Seat, heard: Seat)

  function SizeBefore(t: Track, e: Effect): nat { if e.Plugged? then 0 else t.size }

  /** What is logged of an effect. */
  function KeptFor(t: Track, e: Effect): seq<Record> { Kept(SizeBefore(t, e), WrittenFor(t.last, e)) }

  predicate Keeps(t: Track, e: Effect) { KeptFor(t, e) == WrittenFor(t.last, e) }

  function After(t: Track, e: Effect): Track
  {
    Track(SizeBefore(t, e) + |EncodeAll(KeptFor(t, e))|, SeatAfter(t.last, e), LastSeat(KeptFor(t, e), t.heard))
  }

  function AfterAll(t: Track, effects: seq<Effect>): Track
    decreases |effects|
  {
    if effects == [] then t else AfterAll(After(t, effects[0]), effects[1..])
  }

  function Logged(t: Track, effects: seq<Effect>): seq<Record>
    decreases |effects|
  {
    if effects == [] then [] else KeptFor(t, effects[0]) + Logged(After(t, effects[0]), effects[1..])
  }

  /** The last seat logged before the next answer that is. */
  function Heard(t: Track, effects: seq<Effect>): Seat
    decreases |effects|
  {
    if effects == [] || (effects[0].Answered? && Keeps(t, effects[0])) then t.heard
    else Heard(After(t, effects[0]), effects[1..])
  }

  /** The answers that found no room. */
  function Lost(t: Track, effects: seq<Effect>): nat
    decreases |effects|
  {
    if effects == [] then 0
    else (if effects[0].Answered? && !Keeps(t, effects[0]) then 1 else 0) + Lost(After(t, effects[0]), effects[1..])
  }

  lemma {:induction false} KeptJoins(size: nat, a: seq<Record>, b: seq<Record>)
    ensures Kept(size, a + b) == Kept(size, a) + Kept(size + |EncodeAll(Kept(size, a))|, b)
    decreases |a|
  {
    hide Encode;
    if a == [] {
      assert a + b == b;
    } else {
      assert (a + b)[1..] == a[1..] + b;
      if size + |Encode(a[0])| <= LINK_LOG_MAX_BYTES {
        KeptJoins(size + |Encode(a[0])|, a[1..], b);
        assert Kept(size, a)[1..] == Kept(size + |Encode(a[0])|, a[1..]);
      } else {
        KeptJoins(size, a[1..], b);
      }
    }
  }

  /** Of the records a frame makes, those that fit. */
  lemma {:induction false} LoggedIsKept(t: Track, effects: seq<Effect>)
    requires PluggedOnlyFirst(effects) && (effects != [] && effects[0].Plugged? ==> t.size == 0)
    ensures Logged(t, effects) == Kept(t.size, Written(t.last, effects))
    decreases |effects|
  {
    hide WrittenFor, EncodeAll, Kept, LastSeat;
    if effects != [] {
      LoggedIsKept(After(t, effects[0]), effects[1..]);
      KeptJoins(t.size, WrittenFor(t.last, effects[0]), Written(SeatAfter(t.last, effects[0]), effects[1..]));
    } else {
      NothingKept(t.size);
    }
  }

  lemma NothingKept(size: nat)
    ensures Kept(size, []) == []
  {
  }

  /** All of an effect or nothing; a seat at the beginning always. */
  lemma KeptIsAllOrNothing(t: Track, e: Effect)
    ensures KeptFor(t, e) == if Keeps(t, e) then WrittenFor(t.last, e) else []
    ensures e.Plugged? || WrittenFor(t.last, e) == [] ==> Keeps(t, e)
    ensures !e.Plugged? && WrittenFor(t.last, e) != [] ==>
      |WrittenFor(t.last, e)| == 1
      && (Keeps(t, e) <==> t.size + |Encode(WrittenFor(t.last, e)[0])| <= LINK_LOG_MAX_BYTES)
  {
    var w := WrittenFor(t.last, e);
    if e.Plugged? {
      assert w == [Attach, SeatRecord(Seat(e.devices, e.id))];
      assert w[1..] == [SeatRecord(Seat(e.devices, e.id))];
      KeptOne(1, SeatRecord(Seat(e.devices, e.id)));
      assert [Attach] + w[1..] == w;
    } else if w != [] {
      KeptOne(t.size, w[0]);
      assert w == [w[0]];
    }
  }

  lemma KeptOne(size: nat, r: Record)
    ensures Kept(size, [r]) == if size + |Encode(r)| <= LINK_LOG_MAX_BYTES then [r] else []
  {
    hide Encode;
    assert [r][1..] == [];
  }

  lemma LogGrows(t: Track, e: Effect)
    requires !e.Plugged?
    ensures After(t, e).size >= t.size
  {
  }

  /** Once a record found no room none of its size does. */
  lemma {:induction false} NothingThatBig(t: Track, effects: seq<Effect>)
    requires forall k :: 0 <= k < |effects| ==> !effects[k].Plugged?
    ensures forall r :: r in Logged(t, effects) ==> t.size + |Encode(r)| <= LINK_LOG_MAX_BYTES
    decreases |effects|
  {
    hide Encode, EncodeAll, WrittenFor, KeptFor, LastSeat;
    if effects != [] {
      KeptIsAllOrNothing(t, effects[0]);
      LogGrows(t, effects[0]);
      NothingThatBig(After(t, effects[0]), effects[1..]);
    }
  }

  function SyncKept(t: Track, e: Effect): seq<Record>
  {
    if e.Answered? && Keeps(t, e) then [e.answer]
    else if e.Plugged? || (Asks(e) && Keeps(t, e) && Seat(e.devices, e.id) != t.last)
            then [SeatRecord(Seat(e.devices, e.id))]
    else []
  }

  /** What one effect leaves for the replay driver. */
  lemma SyncOfKept(t: Track, e: Effect)
    ensures SyncOf(KeptFor(t, e)) == SyncKept(t, e)
    ensures AsyncOf(KeptFor(t, e)) == if e.Changed? && Keeps(t, e) then [e.change] else []
  {
    hide Encode, Kept;
    var w := WrittenFor(t.last, e);
    KeptIsAllOrNothing(t, e);
    assert SyncOf([]) == [] && AsyncOf([]) == [];
    if e.Plugged? {
      assert w == [Attach, SeatRecord(Seat(e.devices, e.id))] && w[1..] == [SeatRecord(Seat(e.devices, e.id))]
             && w[1..][1..] == [];
    } else if w != [] {
      assert w == [w[0]] && w[1..] == [];
    }
  }

  lemma SyncOfLogged(t: Track, effects: seq<Effect>)
    requires effects != []
    ensures var e, rest := effects[0], Logged(After(t, effects[0]), effects[1..]);
            && SyncOf(Logged(t, effects)) == SyncKept(t, e) + SyncOf(rest)
            && AsyncOf(Logged(t, effects)) == (if e.Changed? && Keeps(t, e) then [e.change] else []) + AsyncOf(rest)
  {
    hide KeptFor, After, SyncOf, AsyncOf, SyncKept;
    SyncOfKept(t, effects[0]);
    SyncJoins(KeptFor(t, effects[0]), Logged(After(t, effects[0]), effects[1..]));
  }

  /** The seat last logged, one effect later. */
  lemma HeardAfter(t: Track, e: Effect)
    ensures After(t, e).heard ==
      if e.Plugged? || (Asks(e) && Keeps(t, e) && Seat(e.devices, e.id) != t.last) then ByteSeat(Seat(e.devices, e.id))
         else t.heard
  {
    hide Encode, EncodeAll, Kept;
    KeptIsAllOrNothing(t, e);
    var w := WrittenFor(t.last, e);
    if e.Plugged? {
      assert w == [Attach, SeatRecord(Seat(e.devices, e.id))] && w[1..] == [SeatRecord(Seat(e.devices, e.id))];
      assert w[1..][1..] == [];
      assert LastSeat(w, t.heard) == LastSeat(w[1..], t.heard) == LastSeat([], ByteSeat(Seat(e.devices, e.id)));
    } else if w != [] {
      assert w == [w[0]] && w[1..] == [];
      assert LastSeat(w, t.heard) == LastSeat([], if w[0].Config? then Seat(w[0].devices, w[0].id) else t.heard);
    }
  }

  lemma {:induction false} FrontIsHeard(t: Track, effects: seq<Effect>)
    ensures Front(SyncOf(Logged(t, effects)), t.heard) == Heard(t, effects)
    decreases |effects|
  {
    hide After, KeptFor, WrittenFor, LastSeat;
    if effects != [] {
      var e, rest := effects[0], SyncOf(Logged(After(t, effects[0]), effects[1..]));
      SyncOfLogged(t, effects);
      HeardAfter(t, e);
      if !(e.Answered? && Keeps(t, e)) {
        FrontIsHeard(After(t, e), effects[1..]);
        if SyncOf(Logged(t, effects)) != rest {
          assert SyncOf(Logged(t, effects)) == [SeatRecord(Seat(e.devices, e.id))] + rest;
          assert SyncOf(Logged(t, effects))[1..] == rest;
        }
      }
    }
  }

  /** The replay driver, for its part, sees an effect as the same call, or its own event. */
  function Perform(p: Replay, e: Effect): (Replay, Reply)
    requires Valid(p)
  {
    match e
    case AskedDevices(_, _) => Do(p, GetDevices)
    case AskedId(_, _) => Do(p, GetId)
    case Answered(answer) => Do(p, CallOf(answer))
    case Changed(_) => Fire(p)
    case Plugged(_, _) => (p, Silence)
    case Unplugged => (p, Silence)
    case Uncabled(call) => if p.attached then Do(p, call) else (p, Silence)
  }

  lemma PerformKeepsValid(p: Replay, e: Effect)
    requires Valid(p)
    ensures Valid(Perform(p, e).0)
  {
  }

  function PerformAll(p: Replay, effects: seq<Effect>): (Replay, seq<Reply>)
    requires Valid(p)
    decreases |effects|
  {
    if effects == [] then (p, [])
    else
      PerformKeepsValid(p, effects[0]);
      var (q, reply) := Perform(p, effects[0]);
      var (end, replies) := PerformAll(q, effects[1..]);
      (end, [reply] + replies)
  }

  function SeatReply(e: Effect, seat: Seat): Reply
    requires Asks(e)
  {
    if e.AskedDevices? then DevicesAre(seat.devices) else IdIs(seat.id)
  }

  /** What the recorded game was told. */
  function LiveReply(e: Effect): Reply
  {
    match e
    case AskedDevices(devices, id) => SeatReply(e, Seat(devices, id))
    case AskedId(devices, id) => SeatReply(e, Seat(devices, id))
    case Answered(answer) => ReplyOf(answer)
    case Changed(change) => ChangeMade(change.siocnt, change.rcnt, change.finish)
    case Plugged(_, _) => Silence
    case Unplugged => Silence
    case Uncabled(_) => Silence
  }

  predicate Queries(c: Call) { c == GetDevices || c == GetId }

  /** What a driver with nothing left to answer from says. */
  function EmptyReply(c: Call, seat: Seat): Reply
  {
    if c == GetDevices then DevicesAre(seat.devices) else if c == GetId then IdIs(seat.id) else MissReply(c)
  }

  /** What it is told when that found no room in the log. */
  function DroppedReply(e: Effect): Reply { if e.Answered? then MissReply(CallOf(e.answer)) else Silence }

  /** What the replayed game is told: a question is answered with the seat last logged before the next
      answer that was, anything else with what was logged of it. What it calls for without a cable
      is answered by the driver that may still be in, with the seat last logged or as a miss. */
  function ReplayedReply(attached: bool, t: Track, effects: seq<Effect>, k: nat): Reply
    requires k < |effects|
    decreases k
  {
    var e := effects[0];
    if k > 0 then ReplayedReply(attached, After(t, e), effects[1..], k - 1)
    else if Asks(e) then SeatReply(e, Heard(After(t, e), effects[1..]))
    else if e.Uncabled? then (if attached then EmptyReply(e.call, t.heard) else Silence)
    else if Keeps(t, e) then LiveReply(e)
    else DroppedReply(e)
  }

  /** Without a cable the game can only go on without one. */
  predicate UncabledLast(effects: seq<Effect>)
  {
    forall j, k :: 0 <= j < k < |effects| && effects[j].Uncabled? ==> effects[k].Uncabled?
  }

  /** The driver holds exactly what these effects still have to be answered from. */
  predicate Holds(p: Replay, t: Track, effects: seq<Effect>)
    requires Valid(p)
  {
    var sync := SyncOf(Logged(t, effects));
    && Strip(Pending(p)) == Strip(sync)
    && Front(Pending(p), SeatOf(p)) == Front(sync, t.heard)
    && PendingChanges(p) == AsyncOf(Logged(t, effects))
  }

  lemma PerformAsked(p: Replay, t: Track, effects: seq<Effect>)
    requires Valid(p) && effects != [] && Asks(effects[0]) && Holds(p, t, effects)
    ensures var (q, reply) := Perform(p, effects[0]);
            && q.misses == p.misses && reply == ReplayedReply(true, t, effects, 0)
            && Valid(q) && Holds(q, After(t, effects[0]), effects[1..])
  {
    hide Logged, SyncOf, AsyncOf, Heard, After, KeptFor, WrittenFor;
    var e := effects[0];
    var after := After(t, e);
    var q := ApplyConfig(p);
    var sync, rest := SyncOf(Logged(t, effects)), SyncOf(Logged(after, effects[1..]));
    ApplyConfigStrips(p);
    SyncOfLogged(t, effects);
    HeardAfter(t, e);
    if sync != rest {
      assert sync == [SeatRecord(Seat(e.devices, e.id))] + rest && sync[1..] == rest;
    }
    assert Strip(sync) == Strip(rest) && Front(sync, t.heard) == Front(rest, after.heard);
    StripTwice(Pending(p), SeatOf(q));
    FrontIsHeard(after, effects[1..]);
    assert [] + AsyncOf(Logged(after, effects[1..])) == AsyncOf(Logged(after, effects[1..]));
  }

  lemma AnswerInFront(answer: Answer, rest: seq<Record>, seat: Seat)
    ensures Strip([answer] + rest) == [answer] + rest && Front([answer] + rest, seat) == seat
  {
  }

  lemma PerformAnswered(p: Replay, t: Track, effects: seq<Effect>)
    requires Valid(p) && effects != [] && effects[0].Answered? && Keeps(t, effects[0]) && Holds(p, t, effects)
    ensures var (q, reply) := Perform(p, effects[0]);
            && q.misses == p.misses && reply == LiveReply(effects[0])
            && Valid(q) && Holds(q, After(t, effects[0]), effects[1..])
  {
    hide Logged, SyncOf, AsyncOf, Strip, Front, ApplyConfig, After, KeptFor, WrittenFor;
    var answer := effects[0].answer;
    var after := After(t, effects[0]);
    var q := ApplyConfig(p);
    var sync, rest := SyncOf(Logged(t, effects)), SyncOf(Logged(after, effects[1..]));
    ApplyConfigStrips(p);
    SyncOfLogged(t, effects);
    HeardAfter(t, effects[0]);
    assert sync == [answer] + rest;
    AnswerInFront(answer, rest, t.heard);
    assert Pending(q) == [answer] + rest && q.sync[q.head] == Pending(q)[0] == answer;
    var end := Perform(p, effects[0]).0;
    assert Pending(end) == Pending(q)[1..] == rest;
    assert [] + AsyncOf(Logged(after, effects[1..])) == AsyncOf(Logged(after, effects[1..]));
  }

  lemma {:induction false} StripKeepsRecords(entries: seq<Record>)
    ensures forall r :: r in Strip(entries) ==> r in entries
    ensures Strip(entries) != [] ==> !Strip(entries)[0].Config?
  {
    if entries != [] && entries[0].Config? {
      StripKeepsRecords(entries[1..]);
    }
  }

  lemma {:induction false} SyncAreRecords(records: seq<Record>)
    ensures forall r :: r in SyncOf(records) ==> r in records
    ensures forall r :: r in AsyncOf(records) ==> r in records && r.Async?
  {
    if records != [] {
      SyncAreRecords(records[1..]);
    }
  }

  /** With no room for an answer there was none for a later one to the same call. */
  lemma NoLaterAnswer(t: Track, effects: seq<Effect>)
    requires PluggedOnlyFirst(effects) && effects != [] && effects[0].Answered? && !Keeps(t, effects[0])
    ensures var left := Strip(SyncOf(Logged(After(t, effects[0]), effects[1..])));
      left != [] && IsAnswer(left[0]) ==> CallOf(left[0]) != CallOf(effects[0].answer)
  {
    var after := After(t, effects[0]);
    KeptIsAllOrNothing(t, effects[0]);
    LogGrows(t, effects[0]);
    NothingThatBig(after, effects[1..]);
    SyncAreRecords(Logged(after, effects[1..]));
    StripKeepsRecords(SyncOf(Logged(after, effects[1..])));
    var left := Strip(SyncOf(Logged(after, effects[1..])));
    if left != [] && IsAnswer(left[0]) && CallOf(left[0]) == CallOf(effects[0].answer) {
      assert left[0] in Logged(after, effects[1..]);
      SameCallSameSize(left[0], effects[0].answer);
    }
  }

  lemma SameCallSameSize(a: Answer, b: Answer)
    requires CallOf(a) == CallOf(b)
    ensures |Encode(a)| == |Encode(b)|
  {
  }

  lemma PerformLost(p: Replay, t: Track, effects: seq<Effect>)
    requires Valid(p) && effects != [] && effects[0].Answered? && !Keeps(t, effects[0]) && Holds(p, t, effects)
    requires PluggedOnlyFirst(effects)
    ensures var (q, reply) := Perform(p, effects[0]);
            && q.misses == p.misses + 1 && reply == DroppedReply(effects[0])
            && Valid(q) && Holds(q, After(t, effects[0]), effects[1..])
  {
    hide Logged, SyncOf, AsyncOf, Front, After, KeptFor, WrittenFor, Strip, ApplyConfig;
    var after := After(t, effects[0]);
    var rest := SyncOf(Logged(after, effects[1..]));
    var q := ApplyConfig(p);
    ApplyConfigStrips(p);
    SyncOfLogged(t, effects);
    HeardAfter(t, effects[0]);
    assert SyncOf(Logged(t, effects)) == rest;
    NoLaterAnswer(t, effects);
    StripTwice(Pending(p), SeatOf(q));
    if q.head < |q.sync| {
      assert Pending(q)[0] == q.sync[q.head];
    }
    var end := Perform(p, effects[0]).0;
    assert Pending(end) == Pending(q);
    assert [] + AsyncOf(Logged(after, effects[1..])) == AsyncOf(Logged(after, effects[1..]));
  }

  lemma PerformPlug(p: Replay, t: Track, effects: seq<Effect>)
    requires Valid(p) && effects != [] && (effects[0].Plugged? || effects[0].Unplugged?) && Holds(p, t, effects)
    ensures var (q, reply) := Perform(p, effects[0]);
            && q == p && reply == ReplayedReply(true, t, effects, 0)
            && Holds(q, After(t, effects[0]), effects[1..])
  {
    hide Logged, SyncOf, AsyncOf, After, KeptFor, WrittenFor;
    var e := effects[0];
    var after := After(t, e);
    var sync, rest := SyncOf(Logged(t, effects)), SyncOf(Logged(after, effects[1..]));
    SyncOfLogged(t, effects);
    HeardAfter(t, e);
    if e.Plugged? {
      assert sync == [SeatRecord(Seat(e.devices, e.id))] + rest && sync[1..] == rest;
    } else {
      assert sync == [] + rest == rest;
    }
    assert [] + AsyncOf(Logged(after, effects[1..])) == AsyncOf(Logged(after, effects[1..]));
  }

  lemma PerformChanged(p: Replay, t: Track, effects: seq<Effect>)
    requires Valid(p) && effects != [] && effects[0].Changed? && PluggedOnlyFirst(effects) && Holds(p, t, effects)
    ensures var (q, reply) := Perform(p, effects[0]);
            && q.misses == p.misses && reply == ReplayedReply(true, t, effects, 0)
            && Valid(q) && Holds(q, After(t, effects[0]), effects[1..])
  {
    hide Logged, SyncOf, AsyncOf, After, KeptFor, WrittenFor, Strip, Front;
    var e := effects[0];
    var after := After(t, e);
    var changes := AsyncOf(Logged(after, effects[1..]));
    SyncOfLogged(t, effects);
    HeardAfter(t, e);
    assert SyncOf(Logged(t, effects)) == SyncOf(Logged(after, effects[1..]));
    var q := Perform(p, e).0;
    if Keeps(t, e) {
      assert PendingChanges(p) == [e.change] + changes && p.changes[p.changeHead] == PendingChanges(p)[0];
      assert PendingChanges(q) == PendingChanges(p)[1..] == changes;
      assert Pending(q) == Pending(p);
    } else {
      NoLaterChange(t, effects);
      assert PendingChanges(p) == changes == [];
    }
  }

  lemma NoLaterChange(t: Track, effects: seq<Effect>)
    requires PluggedOnlyFirst(effects) && effects != [] && effects[0].Changed? && !Keeps(t, effects[0])
    ensures AsyncOf(Logged(After(t, effects[0]), effects[1..])) == []
  {
    hide After, KeptFor, Logged, AsyncOf;
    var after := After(t, effects[0]);
    KeptIsAllOrNothing(t, effects[0]);
    LogGrows(t, effects[0]);
    NothingThatBig(after, effects[1..]);
    SyncAreRecords(Logged(after, effects[1..]));
    var changes := AsyncOf(Logged(after, effects[1..]));
    if changes != [] {
      assert changes[0] in changes;
      ChangesAreOneSize(changes[0], effects[0].change);
    }
  }

  lemma ChangesAreOneSize(a: Change, b: Change)
    ensures |Encode(a)| == |Encode(b)|
  {
  }

  lemma {:induction false} NothingLoggedUncabled(t: Track, effects: seq<Effect>)
    requires forall k :: 0 <= k < |effects| ==> effects[k].Uncabled?
    ensures Logged(t, effects) == []
    decreases |effects|
  {
    hide After;
    if effects != [] {
      NothingLoggedUncabled(After(t, effects[0]), effects[1..]);
      NothingKept(t.size);
    }
  }

  lemma PerformUncabled(p: Replay, t: Track, effects: seq<Effect>)
    requires Valid(p) && p.attached && effects != [] && effects[0].Uncabled? && UncabledLast(effects)
             && Holds(p, t, effects)
    ensures var (q, reply) := Perform(p, effects[0]);
            && q.misses == p.misses + (if Queries(effects[0].call) then 0 else 1)
               && reply == ReplayedReply(true, t, effects, 0)
            && Valid(q) && Holds(q, After(t, effects[0]), effects[1..])
  {
    hide After, Logged, Heard, Keeps;
    var after, rest := After(t, effects[0]), effects[1..];
    var q := ApplyConfig(p);
    NothingLoggedUncabled(t, effects);
    NothingLoggedUncabled(after, rest);
    ApplyConfigStrips(p);
    HeardAfter(t, effects[0]);
    assert Pending(q) == [];
    var end := Perform(p, effects[0]).0;
    assert Pending(end) == [] && PendingChanges(end) == PendingChanges(p) == [];
  }

  /** The calls without a cable that no answer is there for. */
  function Unanswered(effects: seq<Effect>): nat
  {
    if effects == [] then 0
    else (if effects[0].Uncabled? && !Queries(effects[0].call) then 1 else 0) + Unanswered(effects[1..])
  }

  /** Within a frame, whatever found room in the log: every call that takes an answer, and every change,
      gets the recorded one or, if that was dropped, what nobody being there would give; the misses
      are the answers dropped and those called for without a cable. */
  lemma {:induction false} FrameIsFaithful(p: Replay, t: Track, effects: seq<Effect>)
    requires Valid(p) && p.attached && Holds(p, t, effects) && PluggedOnlyFirst(effects) && UncabledLast(effects)
    ensures var (q, replies) := PerformAll(p, effects);
            && Valid(q) && q.misses == p.misses + Lost(t, effects) + Unanswered(effects) && q.attached
            && |replies| == |effects|
            && (forall k :: 0 <= k < |effects| ==> replies[k] == ReplayedReply(true, t, effects, k))
            && Holds(q, AfterAll(t, effects), [])
    decreases |effects|
  {
    hide Holds, Heard, Perform, After, Keeps, LiveReply, DroppedReply, EmptyReply, Queries;
    if effects != [] {
      var e, rest := effects[0], effects[1..];
      var (q, reply) := Perform(p, e);
      if Asks(e) {
        PerformAsked(p, t, effects);
      } else if e.Answered? {
        if Keeps(t, e) { PerformAnswered(p, t, effects); } else { PerformLost(p, t, effects); }
      } else if e.Changed? {
        PerformChanged(p, t, effects);
      } else if e.Uncabled? {
        PerformUncabled(p, t, effects);
      } else {
        PerformPlug(p, t, effects);
      }
      PerformKeepsAttached(p, e);
      FrameIsFaithful(q, After(t, e), rest);
    }
  }

  lemma PerformKeepsAttached(p: Replay, e: Effect)
    requires Valid(p)
    ensures Perform(p, e).0.attached == p.attached
  {
    ApplyConfigStrips(p);
  }
}
