/**
  The monitor's two halves and the console as objects, each operation changing fields in place, each
  held to the functions of `Monitor`.
 */
module MonitorService {
  import opened Words
  import opened Wrappers
  import opened MonitorMemory
  import opened MonitorValues
  import opened MonitorWrites
  import opened Monitor
  import opened MonitorTheorems

  lemma {:induction false} PostAllJoins(o: Outbox, a: seq<Event>, b: seq<Event>)
    ensures PostAll(PostAll(o, a), b) == PostAll(o, a + b)
    decreases |b|
  {
    hide Post;
    if b == [] {
      assert a + b == a;
    } else {
      PostAllJoins(o, a, b[..|b| - 1]);
      assert (a + b)[..|a + b| - 1] == a + b[..|b| - 1];
    }
  }

  lemma PausingJoins(a: seq<Event>, b: seq<Event>)
    ensures Pausing(a + b) <==> Pausing(a) || Pausing(b)
  {
    if Pausing(a) {
      var e :| e in a && e.PausedByCondition?;
      assert e in a + b;
    }
    if Pausing(b) {
      var e :| e in b && e.PausedByCondition?;
      assert e in a + b;
    }
  }

  class MonitoredCore {
    var memory: Memory
    var frame: nat
    var epoch: nat
    var midFrame: bool
    var playingBack: bool
    var holding: bool
    var linked: bool
    var waiting: seq<Write>
    var scheduled: seq<Write>

    function Value(): Console
      reads this
    {
      Console(memory, frame, epoch, midFrame, playingBack, holding, linked, waiting, scheduled)
    }

    constructor (c: Console)
      ensures Value() == c
    {
      memory, frame, epoch, midFrame, playingBack := c.memory, c.frame, c.epoch, c.midFrame, c.playingBack;
      holding, linked, waiting, scheduled := c.holding, c.linked, c.waiting, c.scheduled;
    }

    /** Emulation runs to the end of the frame, to whatever state that is. */
    method FinishCurrentFrame(finished: Console)
      modifies this
      ensures Value() == finished
    {
      memory, frame, epoch := finished.memory, finished.frame, finished.epoch;
      midFrame, playingBack, holding, linked := finished.midFrame, finished.playingBack, finished.holding,
      finished.linked;
      waiting, scheduled := finished.waiting, finished.scheduled;
    }

    /** What waits is handed to the link, or made, or goes on waiting. */
    method FlushWrites()
      requires Shaped(memory)
      modifies `memory, `waiting, `scheduled
      ensures Value() == MonitorWrites.FlushWrites(old(Value()))
    {
      hide WriteAt;
      if playingBack || holding { return; }
      var writes := waiting;
      assert writes[..|writes|] == writes;
      if linked {
        for i := 0 to |writes|
          invariant scheduled == old(scheduled) + writes[..i] && Value() == old(Value()).(scheduled := scheduled)
        {
          scheduled := scheduled + [writes[i]];
        }
        waiting := [];
        return;
      }
      if midFrame { return; }
      for i := 0 to |writes|
        invariant memory == WriteAll(old(memory), writes[..i]) && Value() == old(Value()).(memory := memory)
      {
        assert writes[..i + 1][..i] == writes[..i];
        memory := WriteAt(memory, writes[i].address, writes[i].data);
      }
      waiting := [];
    }

    method EnqueueWrite(address: u32, data: seq<byte>) returns (taken: bool)
      requires Shaped(memory)
      modifies `memory, `waiting, `scheduled
      ensures (Value(), taken) == MonitorWrites.EnqueueWrite(old(Value()), Write(address, data))
    {
      if playingBack { return false; }
      waiting := waiting + [Write(address, data)];
      FlushWrites();
      return true;
    }

    method WriteIfDifferent(address: u32, data: seq<byte>) returns (taken: bool)
      requires Shaped(memory)
      modifies `memory, `waiting, `scheduled
      ensures (Value(), taken) == WriteIfChanged(old(Value()), address, data)
    {
      if playingBack || data == [] { return false; }
      var current := Slice(memory, address, |data|);
      if current.None? || current.value == data { return false; }
      taken := EnqueueWrite(address, data);
    }
  }

  class MonitorShared {
    var request: Request
    var requestGeneration: nat
    var edits: seq<Edit>
    var editsGeneration: nat
    var ring: seq<Event>
    var ringDropped: nat

    function Value(): Shared
      reads this
    {
      Shared(request, requestGeneration, edits, editsGeneration, ring, ringDropped)
    }

    constructor ()
      ensures Value() == START.shared
    {
      request, requestGeneration := IDLE, 1;
      edits, editsGeneration, ring, ringDropped := [], 0, [], 0;
    }

    method SetRequest(r: Request)
      modifies `request, `requestGeneration
      ensures forall s: Sys, hash :: s.shared == old(Value()) && LocalOk(s.local) ==>
              Value() == Next(hash, s, UpdateRequest(r)).shared
    {
      request := r;
      requestGeneration := requestGeneration + 1;
    }

    method Push(e: Edit)
      modifies `edits, `editsGeneration
      ensures forall s: Sys, hash :: s.shared == old(Value()) && LocalOk(s.local) ==>
              Value() == Next(hash, s, PushEdit(e)).shared
    {
      edits := edits + [e];
      editsGeneration := editsGeneration + 1;
    }

    method Discard()
      modifies `edits
      ensures forall s: Sys, hash :: s.shared == old(Value()) && LocalOk(s.local) ==>
              Value() == Next(hash, s, DiscardEdits).shared
    {
      edits := [];
    }

    /** What there is, and how many there was no room for since the last time. */
    method Drain() returns (events: seq<Event>, dropped: nat)
      modifies `ring, `ringDropped
      ensures events == old(ring) && dropped == old(ringDropped)
      ensures forall s: Sys, hash :: s.shared == old(Value()) && LocalOk(s.local) ==>
              Value() == Next(hash, s, DrainEvents).shared
    {
      events, dropped := ring, ringDropped;
      ring, ringDropped := [], 0;
    }

    method PushEvent(e: Event)
      modifies `ring, `ringDropped
      ensures (ring, ringDropped) == PushRing(old(ring), old(ringDropped), e)
    {
      if |ring| >= EVENT_RING_CAPACITY {
        ring := ring[1..];
        ringDropped := ringDropped + 1;
      }
      ring := ring + [e];
    }
  }

  class MonitorLocal {
    const hash: Hash
    const shared: MonitorShared

    var traces: seq<TraceState>
    var freezes: seq<Freeze>
    var suspended: bool
    var restores: seq<(u32, nat)>
    var freezeOk: seq<bool>
    var pendingEdits: seq<Edit>
    var events: seq<Event>
    var eventsDropped: nat
    var flushNow: bool
    var initialized: bool
    var lastFrame: nat
    var lastEpoch: nat
    var seenRequest: nat
    var seenEdits: nat

    function Value(): Local
      reads this
    {
      Local(traces, freezes, suspended, restores, freezeOk, pendingEdits, Outbox(events, eventsDropped), flushNow,
            initialized, lastFrame, lastEpoch, seenRequest, seenEdits)
    }

    constructor (hash: Hash, shared: MonitorShared)
      ensures Value() == START.local && this.shared == shared && this.hash == hash
    {
      this.hash, this.shared := hash, shared;
      traces, freezes, suspended, restores, freezeOk, pendingEdits := [], [], false, [], [], [];
      events, eventsDropped, flushNow, initialized := [], 0, false, false;
      lastFrame, lastEpoch, seenRequest, seenEdits := 0, 0, 0, 0;
    }

    method PullRequest(free: bool) returns (changed: bool)
      modifies this
      ensures (Value(), changed) ==
              (if shared.requestGeneration == old(seenRequest) || !free then (old(Value()), false)
               else (TakeRequest(old(Value()), shared.request, shared.requestGeneration), true))
    {
      hide Clamp, Baseline, RestoresOf;
      if shared.requestGeneration == seenRequest || !free { return false; }
      seenRequest := shared.requestGeneration;
      var r := Clamp(shared.request);
      suspended := r.suspended;
      var oldTraces := traces;
      traces := seq(|r.traces|, i requires 0 <= i < |r.traces| => Baseline(oldTraces, r.traces[i]));
      var oldRestores := restores;
      restores := seq(|r.freezes|,
                      i requires 0 <= i < |r.freezes| => (r.freezes[i].id, RestoresOf(oldRestores, r.freezes[i].id)));
      freezes := r.freezes;
      freezeOk := seq(|freezes|, _ => true);
      return true;
    }

    method PullEdits(free: bool) returns (arrived: bool)
      modifies this, shared`edits
      ensures arrived == (shared.editsGeneration != old(seenEdits) && free)
      ensures Value() == if arrived
              then old(Value()).(pendingEdits := old(pendingEdits) + old(shared.edits),
                                 seenEdits := shared.editsGeneration)
                         else old(Value())
      ensures shared.edits == if arrived then [] else old(shared.edits)
    {
      if shared.editsGeneration == seenEdits || !free { return false; }
      pendingEdits := pendingEdits + shared.edits;
      shared.edits := [];
      seenEdits := shared.editsGeneration;
      return true;
    }

    method PushEvent(e: Event)
      modifies `events
      ensures events == old(events) + [e]
    {
      events := events + [e];
    }

    /** Compare every trace with its baseline, and move the baseline along. */
    method RunTraces(memory: Memory, frame: nat, report: bool) returns (pause: bool)
      requires Shaped(memory)
      modifies `traces, `events, `eventsDropped
      ensures traces == AllLooked(hash, old(traces), memory)
      ensures var told := if report then AllFindings(hash, old(traces), memory, frame) else [];
              Outbox(events, eventsDropped) == PostAll(Outbox(old(events), old(eventsDropped)), told)
              && pause == Pausing(told)
    {
      hide AllFindings, Findings, Looked, Pausing, PostAll;
      pause := false;
      ghost var before, box := traces, Outbox(events, eventsDropped);
      ghost var told: seq<Event> := [];
      NothingFound(hash, memory, frame, box);
      for index := 0 to |traces|
        invariant |traces| == |before|
        invariant forall k :: 0 <= k < index ==> traces[k] == Looked(hash, before[k], memory)
        invariant forall k :: index <= k < |traces| ==> traces[k] == before[k]
        invariant told == if report then AllFindings(hash, before[..index], memory, frame) else []
        invariant Outbox(events, eventsDropped) == PostAll(box, told)
        invariant pause == Pausing(told)
      {
        ghost var found := if report then Findings(hash, before[index], memory, frame) else [];
        var fired := RunTrace(index, memory, frame, report);
        pause := pause || fired;
        OneMoreFound(hash, before, index, memory, frame);
        PostAllJoins(box, told, found);
        PausingJoins(told, found);
        told := told + found;
      }
      assert before[..|before|] == before;
    }

    method RunTrace(index: nat, memory: Memory, frame: nat, report: bool) returns (pause: bool)
      requires Shaped(memory) && index < |traces|
      modifies `traces, `events, `eventsDropped
      ensures traces == old(traces)[index := Looked(hash, old(traces)[index], memory)]
      ensures var found := if report then Findings(hash, old(traces)[index], memory, frame) else [];
              Outbox(events, eventsDropped) == PostAll(Outbox(old(events), old(eventsDropped)), found)
              && pause == Pausing(found)
    {
      hide Fires, Decode, Pack;
      pause := false;
      var state := traces[index];
      var address := Follow(state.spec.path, memory);
      if address.None? {
        traces := traces[index := state.(valid := false)];
        return;
      }
      var bytes := Slice(memory, address.value, state.spec.len);
      if bytes.None? {
        traces := traces[index := state.(valid := false)];
        return;
      }
      var value := Pack(hash, bytes.value);
      var decoded := Decode(state.spec.decode, bytes.value);
      if report && state.valid && state.value != value {
        ghost var box := Outbox(events, eventsDropped);
        var change := Changed(frame, state.spec.id, state.value, value);
        if |events| < LOCAL_EVENT_CAPACITY {
          events := events + [change];
        } else {
          eventsDropped := eventsDropped + 1;
        }
        PostsOne(box, change);
        if state.spec.pauseWhen.Some? && Fires(state.spec.pauseWhen.value, state.decoded, decoded, true) {
          pause := true;
          PushEvent(PausedByCondition(frame, state.spec.id));
          PostsTwo(box, change, PausedByCondition(frame, state.spec.id));
        }
      }
      traces := traces[index := TraceState(state.spec, value, decoded, true)];
    }

    method ApplyFreezes(core: MonitoredCore) returns (wrote: bool)
      requires LocalOk(Value()) && Shaped(core.memory)
      modifies `restores, `freezeOk, core`memory, core`waiting, core`scheduled
      ensures LocalOk(Value()) && Shaped(core.memory)
      ensures Pass(core.Value(), restores, freezeOk, wrote)
              == HoldAll(freezes, Pass(old(core.Value()), old(restores), old(freezeOk), false), |freezes|)
    {
      hide Hold;
      wrote := false;
      ghost var start := Pass(core.Value(), restores, freezeOk, false);
      for index := 0 to |freezes|
        invariant LocalOk(Value()) && Shaped(core.memory)
        invariant Pass(core.Value(), restores, freezeOk, wrote) == HoldAll(freezes, start, index)
      {
        var restored := HoldOne(core, index, wrote);
        wrote := wrote || restored;
      }
    }

    method HoldOne(core: MonitoredCore, index: nat, ghost wrote: bool) returns (restored: bool)
      requires LocalOk(Value()) && Shaped(core.memory) && index < |freezes|
      modifies `restores, `freezeOk, core`memory, core`waiting, core`scheduled
      ensures LocalOk(Value()) && Shaped(core.memory)
      ensures Pass(core.Value(), restores, freezeOk, wrote || restored)
              == Hold(freezes, Pass(old(core.Value()), old(restores), old(freezeOk), wrote), index)
    {
      hide Resolve, WriteIfChanged;
      restored := false;
      var freeze := freezes[index];
      var address := Follow(freeze.path, core.memory);
      if address.None? {
        freezeOk := freezeOk[index := false];
        return;
      }
      var writable := Writable(core.memory, address.value, |freeze.bytes|);
      freezeOk := freezeOk[index := writable];
      if writable {
        restored := core.WriteIfDifferent(address.value, freeze.bytes);
        if restored {
          var n := restores[index].1;
          restores := restores[index := (restores[index].0, if n < MAX_RESTORES then n + 1 else n)];
        }
      }
    }

    method ApplyPendingEdits(core: MonitoredCore) returns (wrote: bool)
      requires Shaped(core.memory)
      modifies `pendingEdits, `events, `flushNow, core`memory, core`waiting, core`scheduled
      ensures Shaped(core.memory) && pendingEdits == []
      ensures var (console, answers) := ApplyEdits(old(core.Value()), old(pendingEdits));
              && core.Value() == console && wrote == AnyWritten(answers)
              && Outbox(events, eventsDropped) == PostAll(Outbox(old(events), old(eventsDropped)), answers)
      ensures flushNow == (old(flushNow) || old(pendingEdits) != [])
    {
      hide ApplyEdit;
      wrote := false;
      var edits := pendingEdits;
      pendingEdits := [];
      ghost var start, box := core.Value(), Outbox(events, eventsDropped);
      ghost var answers: seq<Event> := [];
      for i := 0 to |edits|
        invariant Shaped(core.memory) && pendingEdits == []
        invariant (core.Value(), answers) == ApplyEdits(start, edits[..i])
        invariant wrote == AnyWritten(answers)
        invariant Outbox(events, eventsDropped) == PostAll(box, answers)
        invariant flushNow == (old(flushNow) || i > 0)
      {
        assert edits[..i + 1][..i] == edits[..i];
        var answer := ApplyOne(core, edits[i]);
        AnyWrittenGrows(answers, answer);
        AnswerIsNoChange(start, edits[..i + 1]);
        answers := answers + [answer];
        assert answers[..|answers| - 1] == answers[..i];
        wrote := wrote || answer.Written?;
        PushEvent(answer);
        flushNow := true;
      }
      assert edits[..|edits|] == edits;
    }

    method ApplyOne(core: MonitoredCore, edit: Edit) returns (answer: Event)
      requires Shaped(core.memory)
      modifies core`memory, core`waiting, core`scheduled
      ensures (core.Value(), answer) == ApplyEdit(old(core.Value()), edit)
    {
      hide Resolve, Slice, MonitorWrites.FlushWrites;
      if core.playingBack { return WriteFailed(edit.editId, Playback); }
      if edit.data == [] || |edit.data| > MAX_EDIT_LEN { return WriteFailed(edit.editId, BadLength); }
      var address := Follow(edit.path, core.memory);
      if address.None? { return WriteFailed(edit.editId, PointerInvalid); }
      var region := Locate(core.memory.regions, address.value, |edit.data|);
      if region.None? { return WriteFailed(edit.editId, Unmapped); }
      if !core.memory.regions[region.value.0].writable { return WriteFailed(edit.editId, ReadOnly); }
      var current := Slice(core.memory, address.value, |edit.data|);
      if current.None? { return WriteFailed(edit.editId, Unmapped); }
      if current.value != edit.data {
        var taken := core.EnqueueWrite(address.value, edit.data);
        if !taken { return WriteFailed(edit.editId, Playback); }
      }
      return Written(core.frame, edit.editId, address.value, current.value, edit.data);
    }

    method TryFlushEvents(newFrame: bool, flushDue: bool, free: bool)
      modifies `events, `eventsDropped, `flushNow, shared`ring, shared`ringDropped
      ensures (events != [] || eventsDropped != 0) && !flushNow ==> !newFrame || !flushDue || !free
      ensures var flushed := (old(flushNow) || (newFrame && flushDue)) && free;
              if flushed then
                && events == [] && eventsDropped == 0 && !flushNow
                && var (ring, dropped) := PushAllRing(old(shared.ring), old(shared.ringDropped), old(events));
                   shared.ring == ring && shared.ringDropped == dropped + old(eventsDropped)
              else
                && events == old(events) && eventsDropped == old(eventsDropped) && flushNow == old(flushNow)
                && shared.ring == old(shared.ring) && shared.ringDropped == old(shared.ringDropped)
    {
      if !flushNow && (!newFrame || !flushDue) { return; }
      if !free { return; }
      ghost var ring, dropped := shared.ring, shared.ringDropped;
      for i := 0 to |events|
        invariant events == old(events) && eventsDropped == old(eventsDropped)
        invariant (shared.ring, shared.ringDropped) == PushAllRing(ring, dropped, events[..i])
      {
        assert events[..i + 1][..i] == events[..i];
        shared.PushEvent(events[i]);
      }
      assert events[..|events|] == events;
      events := [];
      shared.ringDropped := shared.ringDropped + eventsDropped;
      eventsDropped := 0;
      flushNow := false;
    }

    /** Observe what the game did, and whether that pauses. */
    method Observe(core: MonitoredCore) returns (pause: bool, newFrame: bool)
      requires Shaped(core.memory)
      modifies `traces, `events, `eventsDropped
      ensures newFrame == NewFrame(old(Value()), core.Value())
      ensures Value() == Observing(hash, old(Value()), core.Value())
      ensures pause == Pausing(Observed(hash, old(Value()), core.Value()))
    {
      hide AllFindings, PostAll, Pausing, Looked;
      var jumped := initialized && core.epoch != lastEpoch;
      newFrame := !initialized || core.frame != lastFrame || jumped;
      pause := false;
      NothingPosted(hash, Outbox(events, eventsDropped), core.memory);
      if newFrame && traces != [] {
        if jumped {
          PostsOne(Outbox(events, eventsDropped), Event.Discontinuity(core.frame));
          NoPauseFound(Event.Discontinuity(core.frame));
          PushEvent(Event.Discontinuity(core.frame));
          NothingPosted(hash, Outbox(events, eventsDropped), core.memory);
        }
        pause := RunTraces(core.memory, core.frame, !jumped);
      }
    }

    /** Freezes are held and edits applied; what was just written is the new baseline, not a change
        the game made. */
    method Write(core: MonitoredCore, requestChanged: bool, newFrame: bool)
        returns (ghost answers: seq<Event>, wrote: bool)
      requires LocalOk(Value()) && Shaped(core.memory) && newFrame == NewFrame(Value(), core.Value())
      modifies `traces, `restores, `freezeOk, `pendingEdits, `events, `eventsDropped, `flushNow, core`memory,
               core`waiting, core`scheduled
      ensures Shaped(core.memory)
      ensures WrittenBack(hash, old(Value()), old(core.Value()), requestChanged, answers, core.Value(), wrote, Value())
    {
      hide PostAll, AnyWritten, AllLooked, AllFindings, ApplyEdits, FreezePass, NewFrame, Pausing, Observed, Observing;
      wrote := HoldFreezes(core, requestChanged, newFrame);
      NothingAnswered(core.Value(), Outbox(events, eventsDropped));
      answers := ApplyEdits(core.Value(), pendingEdits).1;
      if pendingEdits != [] {
        var edited := ApplyPendingEdits(core);
        wrote := wrote || edited;
      }
      NothingPosted(hash, Outbox(events, eventsDropped), core.memory);
      if wrote && traces != [] {
        var _ := RunTraces(core.memory, core.frame, false);
      }
    }

    method HoldFreezes(core: MonitoredCore, requestChanged: bool, newFrame: bool) returns (wrote: bool)
      requires LocalOk(Value()) && Shaped(core.memory) && newFrame == NewFrame(Value(), core.Value())
      modifies `restores, `freezeOk, core`memory, core`waiting, core`scheduled
      ensures Shaped(core.memory)
      ensures Pass(core.Value(), restores, freezeOk, wrote)
              == FreezePass(old(Value()), old(core.Value()), requestChanged)
    {
      hide HoldAll, NewFrame;
      wrote := false;
      if (newFrame || requestChanged) && !core.playingBack && !suspended && freezes != [] {
        wrote := ApplyFreezes(core);
      }
    }

    /** Everything between taking requests and handing events over. */
    method ActOn(core: MonitoredCore, requestChanged: bool) returns (pause: bool, newFrame: bool)
      requires LocalOk(Value()) && Shaped(core.memory)
      modifies this, core`memory, core`waiting, core`scheduled
      ensures newFrame == NewFrame(old(Value()), old(core.Value()))
      ensures var done := Act(hash, old(Value()), old(core.Value()), requestChanged);
              Value() == done.local && core.Value() == done.console && pause == done.pause
    {
      hide NewFrame, Observing, WrittenBack, Act, Pausing, Observed;
      ghost var l, c := Value(), core.Value();
      pause, newFrame := Observe(core);
      ghost var observed := Value();
      ObservingKeeps(hash, l, c);
      ghost var answers, wrote := Write(core, requestChanged, newFrame);
      ghost var written := Value();
      initialized := true;
      lastFrame := core.frame;
      lastEpoch := core.epoch;
      ActIs(hash, l, c, requestChanged, answers, core.Value(), wrote, written);
    }

    method Pull(m: Moment) returns (requestChanged: bool)
      modifies this, shared`edits
      ensures (Value(), shared.Value(), requestChanged) == Pulled(old(Value()), old(shared.Value()), m)
    {
      hide TakeRequest;
      requestChanged := PullRequest(m.requestFree);
      var editsArrived := PullEdits(m.editsFree);
    }

    /** Writes belong between frames. */
    method Prepare(core: MonitoredCore, requestChanged: bool, m: Moment)
      requires core.Value() == m.console
      modifies core
      ensures core.Value() == ConsoleFor(Value(), requestChanged, m)
    {
      var wantsWrite := pendingEdits != [] || (requestChanged && freezes != []);
      if wantsWrite && core.midFrame && !core.playingBack {
        core.FinishCurrentFrame(m.finished);
      }
    }

    /** Service the monitor at the moment `m`, `core` being the console then. */
    method Serve(core: MonitoredCore, m: Moment) returns (pause: bool)
      requires LocalOk(Value()) && MomentOk(m) && core.Value() == m.console
      modifies this, shared, core
      ensures var o := Service(hash, old(Value()), old(shared.Value()), m);
              Value() == o.local && shared.Value() == o.shared && core.Value() == o.console && pause == o.pause
    {
      hide Pulled, ConsoleFor, Act, Flush, NewFrame;
      if m.running && core.midFrame { return false; }
      PulledIsOk(Value(), shared.Value(), m);
      var requestChanged := Pull(m);
      ConsoleIsShaped(Value(), requestChanged, m);
      Prepare(core, requestChanged, m);
      var newFrame;
      pause, newFrame := ActOn(core, requestChanged);
      FlushOrNot(m, newFrame);
    }

    method FlushOrNot(m: Moment, newFrame: bool)
      modifies `events, `eventsDropped, `flushNow, shared`ring, shared`ringDropped
      ensures (Value(), shared.Value()) == Flush(old(Value()), old(shared.Value()), m, newFrame)
    {
      hide PushAllRing;
      if events != [] || eventsDropped != 0 {
        TryFlushEvents(newFrame, m.flushDue, m.eventsFree);
      }
    }
  }

  /** The monitor after the look. */
  function Observing(hash: Hash, l: Local, c: Console): Local
    requires Shaped(c.memory)
  {
    l.(traces := if NewFrame(l, c) then AllLooked(hash, l.traces, c.memory) else l.traces,
       outbox := PostAll(l.outbox, Observed(hash, l, c)))
  }

  /** ... and after the writes, which leave the console `c` as `after`. */
  predicate WrittenBack(hash: Hash, l: Local, c: Console, requestChanged: bool, answers: seq<Event>, after: Console,
      wrote: bool, end: Local)
    requires LocalOk(l) && Shaped(c.memory) && Shaped(after.memory)
  {
    var p := FreezePass(l, c, requestChanged);
    && (after, answers) == ApplyEdits(p.console, l.pendingEdits)
    && wrote == (p.wrote || AnyWritten(answers))
    && end == l.(traces := if wrote then AllLooked(hash, l.traces, after.memory) else l.traces,
                 restores := p.restores, freezeOk := p.ok, pendingEdits := [],
                 outbox := PostAll(l.outbox, answers), flushNow := l.flushNow || l.pendingEdits != [])
  }

  lemma ObservingKeeps(hash: Hash, l: Local, c: Console)
    requires LocalOk(l) && Shaped(c.memory)
    ensures var o := Observing(hash, l, c); LocalOk(o) && NewFrame(o, c) == NewFrame(l, c)
  {
  }

  /** The two together. */
  lemma ActIs(hash: Hash, l: Local, c: Console, requestChanged: bool, answers: seq<Event>, after: Console, wrote: bool,
      written: Local)
    requires LocalOk(l) && Shaped(c.memory) && Shaped(after.memory)
    requires LocalOk(Observing(hash, l, c))
    requires WrittenBack(hash, Observing(hash, l, c), c, requestChanged, answers, after, wrote, written)
    ensures var done := Act(hash, l, c, requestChanged);
            && done.local == written.(initialized := true, lastFrame := c.frame, lastEpoch := c.epoch)
            && done.console == after && done.pause == Pausing(Observed(hash, l, c))
  {
    hide AllLooked, PostAll, HoldAll, Pausing, AnyWritten, ApplyEdits, Observed;
    assert FreezePass(Observing(hash, l, c), c, requestChanged) == FreezePass(l, c, requestChanged);
    PostAllJoins(l.outbox, Observed(hash, l, c), answers);
  }

  lemma ConsoleIsShaped(l: Local, requestChanged: bool, m: Moment)
    requires MomentOk(m)
    ensures Shaped(ConsoleFor(l, requestChanged, m).memory)
  {
  }

  lemma PulledIsOk(l: Local, sh: Shared, m: Moment)
    requires LocalOk(l)
    ensures LocalOk(Pulled(l, sh, m).0)
  {
  }

  lemma PostsOne(o: Outbox, e: Event)
    ensures PostAll(o, [e]) == Post(o, e)
  {
    assert [e][..0] == [];
  }

  lemma PostsTwo(o: Outbox, e: Event, f: Event)
    requires f.PausedByCondition?
    ensures PostAll(o, [e, f]) == Post(Post(o, e), f) && Pausing([e, f])
  {
    assert [e, f][..1] == [e];
    PostsOne(o, e);
    assert f in [e, f];
  }

  lemma NothingFound(hash: Hash, m: Memory, frame: nat, o: Outbox)
    requires Shaped(m)
    ensures AllFindings(hash, [], m, frame) == [] && PostAll(o, []) == o && !Pausing([])
  {
  }

  lemma OneMoreFound(hash: Hash, traces: seq<TraceState>, i: nat, m: Memory, frame: nat)
    requires Shaped(m) && i < |traces|
    ensures AllFindings(hash, traces[..i + 1], m, frame)
            == AllFindings(hash, traces[..i], m, frame) + Findings(hash, traces[i], m, frame)
  {
    assert traces[..i + 1][..i] == traces[..i];
  }

  lemma AnyWrittenGrows(answers: seq<Event>, answer: Event)
    ensures AnyWritten(answers + [answer]) <==> AnyWritten(answers) || answer.Written?
  {
    if AnyWritten(answers) {
      var e :| e in answers && e.Written?;
      assert e in answers + [answer];
    }
    assert answer in answers + [answer];
  }

  lemma AnswerIsNoChange(c: Console, edits: seq<Edit>)
    requires Shaped(c.memory) && edits != []
    ensures !ApplyEdits(c, edits).1[|edits| - 1].Changed?
  {
    AnswersAreNoChanges(c, edits);
    assert ApplyEdits(c, edits).1[|edits| - 1] in ApplyEdits(c, edits).1;
  }

  lemma NothingAnswered(c: Console, o: Outbox)
    requires Shaped(c.memory)
    ensures ApplyEdits(c, []) == (c, []) && PostAll(o, []) == o && !AnyWritten([])
  {
  }

  lemma NothingPosted(hash: Hash, o: Outbox, m: Memory)
    requires Shaped(m)
    ensures PostAll(o, []) == o && !Pausing([]) && AllLooked(hash, [], m) == []
  {
  }

  lemma NoPauseFound(e: Event)
    requires !e.PausedByCondition?
    ensures !Pausing([e])
  {
  }
}
