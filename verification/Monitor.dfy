/**
  The memory monitor's service at a frame boundary: observe what the game did, pause, hold frozen
  values, apply edits, take the result as the new baseline, hand events over.
 */
module Monitor {
  import opened Words
  import opened Wrappers
  import opened MonitorMemory
  import opened MonitorValues
  import opened MonitorWrites

  const MAX_VALUE_LEN: nat := 64
  const MAX_TRACES: nat := 64
  const MAX_FREEZES: nat := 256
  const MAX_FREEZE_BYTES: nat := 4096
  const MAX_EDIT_LEN: nat := 4096
  const EVENT_RING_CAPACITY: nat := 8192
  const LOCAL_EVENT_CAPACITY: nat := 1024
  const MAX_RESTORES: nat := 0xFFFF_FFFF

  datatype TraceSpec = TraceSpec(id: u32, path: AddressPath, len: nat, decode: ValueDecode,
      pauseWhen: Option<TraceCondition>)

  datatype Freeze = Freeze(id: u32, path: AddressPath, bytes: seq<byte>)

  datatype Edit = Edit(editId: nat, path: AddressPath, data: seq<byte>)

  datatype Request = Request(traces: seq<TraceSpec>, freezes: seq<Freeze>, suspended: bool)

  datatype WriteFailure = Unmapped | ReadOnly | PointerInvalid | Playback | BadLength

  datatype Event =
    | Changed(frame: nat, id: u32, old_: nat, new_: nat)
    | Discontinuity(frame: nat)
    | PausedByCondition(frame: nat, id: u32)
    | Written(frame: nat, editId: nat, address: u32, oldBytes: seq<byte>, newBytes: seq<byte>)
    | WriteFailed(editId: nat, reason: WriteFailure)

  datatype TraceState = TraceState(spec: TraceSpec, value: nat, decoded: Option<int>, valid: bool)

  /** What the two threads share. */
  datatype Shared = Shared(
    request: Request, requestGeneration: nat,
    edits: seq<Edit>, editsGeneration: nat,
    ring: seq<Event>, ringDropped: nat)

  /** Events not handed over yet, and how many there was no room for. */
  datatype Outbox = Outbox(events: seq<Event>, dropped: nat)

  datatype Local = Local(
    traces: seq<TraceState>,
    freezes: seq<Freeze>, suspended: bool,
    restores: seq<(u32, nat)>, freezeOk: seq<bool>,
    pendingEdits: seq<Edit>,
    outbox: Outbox, flushNow: bool,
    initialized: bool, lastFrame: nat, lastEpoch: nat,
    seenRequest: nat, seenEdits: nat)

  /** The circumstances of one service: the console, what it would be with its frame finished, which
      locks nobody else holds, and whether the time between flushes has passed. */
  datatype Moment = Moment(
    running: bool, console: Console, finished: Console,
    requestFree: bool, editsFree: bool, eventsFree: bool, flushDue: bool)

  // ---- Requests --------------------------------------------------------------------------------

  function Clamped(len: nat): (n: nat)
    ensures 1 <= n <= MAX_VALUE_LEN
  {
    if len < 1 then 1 else if len > MAX_VALUE_LEN then MAX_VALUE_LEN else len
  }

  function ClampTraces(traces: seq<TraceSpec>): seq<TraceSpec>
  {
    var kept := if |traces| > MAX_TRACES then traces[..MAX_TRACES] else traces;
    seq(|kept|, i requires 0 <= i < |kept| => kept[i].(len := Clamped(kept[i].len)))
  }

  /** Each freeze the remaining bytes still allow. */
  function WithinBudget(freezes: seq<Freeze>, budget: nat): seq<Freeze>
    decreases |freezes|
  {
    if freezes == [] then []
    else if |freezes[0].bytes| <= budget then [freezes[0]] + WithinBudget(freezes[1..], budget - |freezes[0].bytes|)
    else WithinBudget(freezes[1..], budget)
  }

  function Clamp(r: Request): Request
  {
    var freezes := if |r.freezes| > MAX_FREEZES then r.freezes[..MAX_FREEZES] else r.freezes;
    Request(ClampTraces(r.traces), WithinBudget(freezes, MAX_FREEZE_BYTES), r.suspended)
  }

  predicate SameWatch(a: TraceSpec, b: TraceSpec) { a.id == b.id && a.path == b.path && a.len == b.len }

  /** The baseline of the first trace that watched the same thing. */
  function Baseline(traces: seq<TraceState>, spec: TraceSpec): TraceState
  {
    if traces == [] then TraceState(spec, 0, None, false)
    else if SameWatch(traces[0].spec, spec) then traces[0].(spec := spec)
    else Baseline(traces[1..], spec)
  }

  function RestoresOf(restores: seq<(u32, nat)>, id: u32): nat
  {
    if restores == [] then 0 else if restores[0].0 == id then restores[0].1 else RestoresOf(restores[1..], id)
  }

  function TakeRequest(l: Local, r: Request, generation: nat): Local
  {
    var c := Clamp(r);
    l.(traces := seq(|c.traces|, i requires 0 <= i < |c.traces| => Baseline(l.traces, c.traces[i])),
       freezes := c.freezes, suspended := c.suspended,
       restores := seq(|c.freezes|,
                       i requires 0 <= i < |c.freezes| => (c.freezes[i].id, RestoresOf(l.restores, c.freezes[i].id))),
       freezeOk := seq(|c.freezes|, _ => true),
       seenRequest := generation)
  }

  function PullRequest(l: Local, sh: Shared, m: Moment): (Local, bool)
  {
    if sh.requestGeneration == l.seenRequest || !m.requestFree then (l, false)
    else (TakeRequest(l, sh.request, sh.requestGeneration), true)
  }

  function PullEdits(l: Local, sh: Shared, m: Moment): (Local, Shared)
  {
    if sh.editsGeneration == l.seenEdits || !m.editsFree then (l, sh)
    else (l.(pendingEdits := l.pendingEdits + sh.edits, seenEdits := sh.editsGeneration), sh.(edits := []))
  }

  // ---- Traces ----------------------------------------------------------------------------------

  type Hash = seq<byte> -> nat

  /** Look at a watch: its baseline moves along. */
  function Looked(hash: Hash, t: TraceState, m: Memory): TraceState
    requires Shaped(m)
  {
    match Read(m, t.spec.path, t.spec.len)
    case None => t.(valid := false)
    case Some(bytes) => TraceState(t.spec, Pack(hash, bytes), Decode(t.spec.decode, bytes), true)
  }

  /** What that look has to tell. */
  function Findings(hash: Hash, t: TraceState, m: Memory, frame: nat): seq<Event>
    requires Shaped(m)
  {
    var now := Looked(hash, t, m);
    if t.valid && now.valid && t.value != now.value then
      [Changed(frame, t.spec.id, t.value, now.value)] +
      (if t.spec.pauseWhen.Some? && Fires(t.spec.pauseWhen.value, t.decoded, now.decoded, true)
       then [PausedByCondition(frame, t.spec.id)] else [])
    else []
  }

  function AllFindings(hash: Hash, traces: seq<TraceState>, m: Memory, frame: nat): seq<Event>
    requires Shaped(m)
  {
    if traces == [] then []
    else AllFindings(hash, traces[..|traces| - 1], m, frame) + Findings(hash, traces[|traces| - 1], m, frame)
  }

  function AllLooked(hash: Hash, traces: seq<TraceState>, m: Memory): seq<TraceState>
    requires Shaped(m)
  {
    seq(|traces|, i requires 0 <= i < |traces| => Looked(hash, traces[i], m))
  }

  predicate Pausing(events: seq<Event>) { exists e :: e in events && e.PausedByCondition? }

  /** Only changes are subject to the room there is. */
  function Post(o: Outbox, e: Event): Outbox
  {
    if e.Changed? && |o.events| >= LOCAL_EVENT_CAPACITY then o.(dropped := o.dropped + 1)
    else o.(events := o.events + [e])
  }

  function PostAll(o: Outbox, events: seq<Event>): Outbox
  {
    if events == [] then o else Post(PostAll(o, events[..|events| - 1]), events[|events| - 1])
  }

  // ---- Freezes ---------------------------------------------------------------------------------

  datatype Pass = Pass(console: Console, restores: seq<(u32, nat)>, ok: seq<bool>, wrote: bool)

  predicate PassOk(freezes: seq<Freeze>, p: Pass)
  {
    Shaped(p.console.memory) && |p.restores| == |freezes| == |p.ok|
  }

  /** A restore counts once its write was taken, whether or not it has been made. */
  function Hold(freezes: seq<Freeze>, p: Pass, i: nat): Pass
    requires PassOk(freezes, p) && i < |freezes|
    ensures PassOk(freezes, Hold(freezes, p, i))
  {
    var f := freezes[i];
    match Resolve(f.path, p.console.memory)
    case None => p.(ok := p.ok[i := false])
    case Some(address) =>
      if !Writable(p.console.memory, address, |f.bytes|) then p.(ok := p.ok[i := false])
      else
        var (console, wrote) := WriteIfChanged(p.console, address, f.bytes);
        var n := p.restores[i].1;
        Pass(console,
             if wrote then p.restores[i := (p.restores[i].0, if n < MAX_RESTORES then n + 1 else n)] else p.restores,
             p.ok[i := true], p.wrote || wrote)
  }

  /** The first `n` freezes, in order. */
  function HoldAll(freezes: seq<Freeze>, p: Pass, n: nat): Pass
    requires PassOk(freezes, p) && n <= |freezes|
    ensures PassOk(freezes, HoldAll(freezes, p, n))
  {
    if n == 0 then p else Hold(freezes, HoldAll(freezes, p, n - 1), n - 1)
  }

  // ---- Edits -----------------------------------------------------------------------------------

  /** What becomes of an edit: the console after it, and the answer its author gets. */
  function ApplyEdit(c: Console, e: Edit): (r: (Console, Event))
    requires Shaped(c.memory)
    ensures Shaped(r.0.memory)
  {
    if c.playingBack then (c, WriteFailed(e.editId, Playback))
    else if e.data == [] || |e.data| > MAX_EDIT_LEN then (c, WriteFailed(e.editId, BadLength))
    else
      match Resolve(e.path, c.memory)
      case None => (c, WriteFailed(e.editId, PointerInvalid))
      case Some(address) =>
        if Locate(c.memory.regions, address, |e.data|).None? then (c, WriteFailed(e.editId, Unmapped))
        else if !Writable(c.memory, address, |e.data|) then (c, WriteFailed(e.editId, ReadOnly))
        else
          match Slice(c.memory, address, |e.data|)
          case None => (c, WriteFailed(e.editId, Unmapped))
          case Some(before) =>
            (if before != e.data then EnqueueWrite(c, Write(address, e.data)).0 else c,
             Written(c.frame, e.editId, address, before, e.data))
  }

  function ApplyEdits(c: Console, edits: seq<Edit>): (r: (Console, seq<Event>))
    requires Shaped(c.memory)
    ensures Shaped(r.0.memory) && |r.1| == |edits|
  {
    if edits == [] then (c, [])
    else
      var (before, answers) := ApplyEdits(c, edits[..|edits| - 1]);
      var (after, answer) := ApplyEdit(before, edits[|edits| - 1]);
      (after, answers + [answer])
  }

  predicate AnyWritten(answers: seq<Event>) { exists e :: e in answers && e.Written? }

  // ---- Handing events over ---------------------------------------------------------------------

  function PushRing(ring: seq<Event>, dropped: nat, e: Event): (seq<Event>, nat)
  {
    if |ring| >= EVENT_RING_CAPACITY then (ring[1..] + [e], dropped + 1) else (ring + [e], dropped)
  }

  function PushAllRing(ring: seq<Event>, dropped: nat, events: seq<Event>): (seq<Event>, nat)
  {
    if events == [] then (ring, dropped)
    else
      var (r, d) := PushAllRing(ring, dropped, events[..|events| - 1]);
      PushRing(r, d, events[|events| - 1])
  }

  function Flush(l: Local, sh: Shared, m: Moment, newFrame: bool): (Local, Shared)
  {
    if l.outbox.events == [] && l.outbox.dropped == 0 then (l, sh)
    else if !l.flushNow && (!newFrame || !m.flushDue) then (l, sh)
    else if !m.eventsFree then (l, sh)
    else
      var (ring, dropped) := PushAllRing(sh.ring, sh.ringDropped, l.outbox.events);
      (l.(outbox := Outbox([], 0), flushNow := false), sh.(ring := ring, ringDropped := dropped + l.outbox.dropped))
  }

  // ---- The service -----------------------------------------------------------------------------

  predicate LocalOk(l: Local) { |l.restores| == |l.freezes| == |l.freezeOk| }

  predicate MomentOk(m: Moment) { Shaped(m.console.memory) && Shaped(m.finished.memory) }

  predicate Skipped(m: Moment) { m.running && m.console.midFrame }

  /** After requests and edits are in: the monitor, what is shared, whether the request is new. */
  function Pulled(l: Local, sh: Shared, m: Moment): (Local, Shared, bool)
  {
    var (l1, requestChanged) := PullRequest(l, sh, m);
    var (l2, sh2) := PullEdits(l1, sh, m);
    (l2, sh2, requestChanged)
  }

  /** Writes belong between frames: a paused console in the middle of one finishes it first. */
  function ConsoleFor(l: Local, requestChanged: bool, m: Moment): Console
  {
    var wantsWrite := l.pendingEdits != [] || (requestChanged && l.freezes != []);
    if wantsWrite && m.console.midFrame && !m.console.playingBack then m.finished else m.console
  }

  predicate Jumped(l: Local, c: Console) { l.initialized && c.epoch != l.lastEpoch }

  predicate NewFrame(l: Local, c: Console) { !l.initialized || c.frame != l.lastFrame || Jumped(l, c) }

  /** What the game did since the last look, and whether the look is at a discontinuity. */
  function Observed(hash: Hash, l: Local, c: Console): seq<Event>
    requires Shaped(c.memory)
  {
    if !NewFrame(l, c) || l.traces == [] then []
    else if Jumped(l, c) then [Discontinuity(c.frame)]
    else AllFindings(hash, l.traces, c.memory, c.frame)
  }

  predicate Freezing(l: Local, c: Console, requestChanged: bool)
  {
    (NewFrame(l, c) || requestChanged) && !c.playingBack && !l.suspended && l.freezes != []
  }

  function FreezePass(l: Local, c: Console, requestChanged: bool): Pass
    requires LocalOk(l) && Shaped(c.memory)
    ensures PassOk(l.freezes, FreezePass(l, c, requestChanged))
  {
    var p := Pass(c, l.restores, l.freezeOk, false);
    if Freezing(l, c, requestChanged) then HoldAll(l.freezes, p, |l.freezes|) else p
  }

  /** Everything a service does to the monitor and to the console, before events are handed over. */
  datatype Done = Done(local: Local, console: Console, pause: bool, wrote: bool, generated: seq<Event>)

  function Act(hash: Hash, l: Local, c: Console, requestChanged: bool): Done
    requires LocalOk(l) && Shaped(c.memory)
    ensures LocalOk(Act(hash, l, c, requestChanged).local) && Shaped(Act(hash, l, c, requestChanged).console.memory)
  {
    var seen := Observed(hash, l, c);
    var traces1 := if NewFrame(l, c) then AllLooked(hash, l.traces, c.memory) else l.traces;
    var p := FreezePass(l, c, requestChanged);
    var (console, answers) := ApplyEdits(p.console, l.pendingEdits);
    var wrote := p.wrote || AnyWritten(answers);
    var traces2 := if wrote then AllLooked(hash, traces1, console.memory) else traces1;
    Done(l.(traces := traces2, restores := p.restores, freezeOk := p.ok, pendingEdits := [],
            outbox := PostAll(l.outbox, seen + answers), flushNow := l.flushNow || l.pendingEdits != [],
            initialized := true, lastFrame := c.frame, lastEpoch := c.epoch),
         console, Pausing(seen), wrote, seen + answers)
  }

  datatype Outcome = Outcome(local: Local, shared: Shared, console: Console, pause: bool)

  function Service(hash: Hash, l: Local, sh: Shared, m: Moment): Outcome
    requires LocalOk(l) && MomentOk(m)
    ensures LocalOk(Service(hash, l, sh, m).local)
  {
    if Skipped(m) then Outcome(l, sh, m.console, false)
    else
      var (l1, sh1, requestChanged) := Pulled(l, sh, m);
      var c := ConsoleFor(l1, requestChanged, m);
      var done := Act(hash, l1, c, requestChanged);
      var (l2, sh2) := Flush(done.local, sh1, m, NewFrame(l1, c));
      Outcome(l2, sh2, done.console, done.pause)
  }

  /** What a service has to tell, whatever becomes of it. */
  function Generated(hash: Hash, l: Local, sh: Shared, m: Moment): seq<Event>
    requires LocalOk(l) && MomentOk(m)
  {
    if Skipped(m) then []
    else
      var (l1, _, requestChanged) := Pulled(l, sh, m);
      Act(hash, l1, ConsoleFor(l1, requestChanged, m), requestChanged).generated
  }
}
