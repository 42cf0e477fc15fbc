/**
  The monitor on a linked console: its writes go to the link, which makes them `delay` frames later.
  Runs of the two together, for any delay, in which the monitor takes its own frozen value for a change
  of the game.
 */
module MonitorLinked {
  import opened Words
  import opened Wrappers
  import opened MonitorMemory
  import opened MonitorValues
  import opened MonitorWrites
  import opened Monitor
  import opened MonitorTheorems
  import opened MonitorFreezes
  import G = LinkGame
  import L = LinkMachine

  /** Two consoles that take turns, a frame a step, and have one byte of memory each, which the games
      leave alone. */
  datatype Cells = Cells(f1: nat, f2: nat, first: bv8, second: bv8)

  function Given(p: Cells, who: bool, e: G.Event): Cells
  {
    if !e.WriteMemory? || e.address != 0 || |e.data| != 1 then p
    else if who then p.(first := e.data[0])
    else p.(second := e.data[0])
  }

  function FramesOf(p: Cells, who: bool): nat { if who then p.f1 else p.f2 }

  function Turns(): G.Game<Cells, nat>
  {
    G.Game((_, _) => false, FramesOf, (_, _) => false, Given,
           (p: Cells, who) => Some((if who then p.(f1 := p.f1 + 1) else p.(f2 := p.f2 + 1), 1)), _ => 0)
  }

  function Plug(delay: nat): L.Settings { L.Settings(delay, true, [], []) }

  /** The first console as the monitor on its machine sees it. */
  function ConsoleOf(m: L.Machine<Cells, nat>): Console
  {
    Console(OneByte(m.pair.first as int), m.frame, 0, false, false, false, true, [], [])
  }

  function EventsOf(writes: seq<Write>): seq<G.Event>
  {
    seq(|writes|, i requires 0 <= i < |writes| =>
      G.WriteMemory(writes[i].address,
                    seq(|writes[i].data|, j requires 0 <= j < |writes[i].data| => writes[i].data[j] as bv8)))
  }

  /** The monitor and the machine it is on. */
  datatype Both = Both(sys: Sys, machine: L.Machine<Cells, nat>)

  function MomentOf(c: Console): Moment { Moment(true, c, c, true, true, true, true) }

  /** A service, with what it handed to the link. */
  function Serviced(hash: Hash, b: Both): (r: Both)
    requires LocalOk(b.sys.local)
    ensures LocalOk(r.sys.local)
  {
    var m := MomentOf(ConsoleOf(b.machine));
    Both(Next(hash, b.sys, Serve(m)),
         L.ScheduleAll(b.machine, EventsOf(Service(hash, b.sys.local, b.sys.shared, m).console.scheduled)))
  }

  function StepPair(delay: nat, m: L.Machine<Cells, nat>): L.Machine<Cells, nat>
  {
    L.Iterate(Turns(), Plug(delay), m, [], false).0
  }

  const WATCH := TraceSpec(7, ZERO, 1, UNSIGNED, None)

  function FreezeAt(v: byte): Freeze { Freeze(1, ZERO, [v]) }

  /** One watch and one freeze, on the same byte; then `n` times a service, and a frame of each console. */
  function After(hash: Hash, delay: nat, x: bv8, v: bv8, n: nat): (r: Both)
    ensures LocalOk(r.sys.local)
  {
    if n == 0 then
      Both(Next(hash, START, UpdateRequest(Request([WATCH], [FreezeAt(v as int)], false))),
           L.BeginLink(Plug(delay), Cells(0, 0, x, x), []))
    else
      var b := Serviced(hash, After(hash, delay, x, v, n - 1));
      b.(machine := StepPair(delay, StepPair(delay, b.machine)))
  }

  // ---- The link --------------------------------------------------------------------------------

  const INPUT := G.ChangeInput([])

  /** The machine at the beginning of frame `n`, with a write of `v` in every frame sent. */
  predicate AtFrame(m: L.Machine<Cells, nat>, delay: nat, x: bv8, v: bv8, n: nat)
  {
    && m.frame == m.partnerFrame == n && m.nextSendFrame == delay + n && !m.framePrepared && !m.partnerPrepared
    && m.pair == Cells(n, n, x, x) && m.receivedHashes == [] && m.inbox.frames == map[]
    && (forall f :: n <= f < delay ==> f in m.queue && m.queue[f] == [INPUT])
    && (forall f :: delay <= f < delay + n ==> f in m.queue && m.queue[f] == [G.WriteMemory(0, [v]), INPUT])
    && (forall f :: f in m.queue ==> f < delay + n)
  }

  lemma {:induction false} PrefilledWithInput(n: nat)
    ensures forall f :: f in L.Prefill(n, []) <==> 0 <= f < n
    ensures forall f :: 0 <= f < n ==> L.Prefill(n, [])[f] == [INPUT]
  {
    if n > 0 {
      PrefilledWithInput(n - 1);
    }
  }

  lemma Begins(delay: nat, x: bv8, v: bv8)
    ensures AtFrame(L.BeginLink<Cells, nat>(Plug(delay), Cells(0, 0, x, x), []), delay, x, v, 0)
  {
    PrefilledWithInput(delay);
  }

  lemma BatchesDo(p: Cells, who: bool, v: bv8)
    ensures G.ApplyBatch(Turns(), p, who, [INPUT]) == p
    ensures G.ApplyBatch(Turns(), p, who, [G.WriteMemory(0, [v]), INPUT]) == if who then p.(first := v)
            else p.(second := v)
  {
    var write, batch := G.WriteMemory(0, [v]), [G.WriteMemory(0, [v]), INPUT];
    assert [INPUT][1..] == [] && batch[1..] == [INPUT];
    assert G.ApplyBatch(Turns(), p, who, batch) == G.ApplyBatch(Turns(), Given(p, who, write), who, [INPUT]);
    assert G.ApplyBatch(Turns(), Given(p, who, write), who, [INPUT])
           == G.ApplyBatch(Turns(), Given(p, who, write), who, []);
  }

  /** A hash that is due is nobody's to compare it with. */
  lemma HashesDoNothing(m: L.Machine<Cells, nat>, secondRuns: bool)
    requires m.receivedHashes == []
    ensures var (q, failure) := L.TakeDueHash(Turns(), m, secondRuns);
      && failure.None?
      && q == m.(pendingHash := q.pendingHash, computedHashes := q.computedHashes, hashDueAt := q.hashDueAt)
  {
  }

  /** The beginning of a frame of the first console, with a write scheduled in it. */
  lemma FirstPrepares(m: L.Machine<Cells, nat>, delay: nat, x: bv8, v: bv8, n: nat)
    requires AtFrame(m, delay, x, v, n) && 1 <= delay && n <= delay
    ensures var q := L.PrepareLocal(Turns(), Plug(delay), L.Schedule(m, G.WriteMemory(0, [v])), []);
      && q.pair == Cells(n, n, if n < delay then x else v, x) && q.frame == n && q.framePrepared
      && (n < delay ==>
          AtFrame(q.(frame := n + 1, partnerFrame := n + 1, framePrepared := false, pair := Cells(n + 1, n + 1, x, x)),
                  delay, x, v, n + 1))
      && q.partnerFrame == m.partnerFrame && q.partnerPrepared == m.partnerPrepared
      && q.receivedHashes == m.receivedHashes && q.inbox == m.inbox
  {
    hide G.ApplyBatch;
    BatchesDo(m.pair, true, v);
    assert [] + [G.WriteMemory(0, [v])] + [INPUT] == [G.WriteMemory(0, [v]), INPUT];
  }

  /** A frame of the first console, with a write scheduled at its beginning. */
  lemma FirstRuns(m: L.Machine<Cells, nat>, delay: nat, x: bv8, v: bv8, n: nat)
    requires AtFrame(m, delay, x, v, n) && 1 <= delay && n <= delay
    ensures var q := StepPair(delay, L.Schedule(m, G.WriteMemory(0, [v])));
      && q.pair == Cells(n + 1, n, if n < delay then x else v, x) && q.receivedHashes == [] && q.inbox.frames == map[]
         && q.frame == n + 1
      && q.partnerFrame == n && !q.partnerPrepared
      && (n < delay ==> AtFrame(q.(partnerFrame := n + 1, pair := Cells(n + 1, n + 1, x, x)), delay, x, v, n + 1))
  {
    hide G.ApplyBatch, L.TakeDueHash, L.PrepareLocal, L.ApplyScheduled, L.SendFresh;
    HashesDoNothing(L.Schedule(m, G.WriteMemory(0, [v])), false);
    var m1 := L.TakeDueHash(Turns(), L.Schedule(m, G.WriteMemory(0, [v])), false).0;
    var before := m.(pendingHash := m1.pendingHash, computedHashes := m1.computedHashes, hashDueAt := m1.hashDueAt);
    assert m1 == L.Schedule(before, G.WriteMemory(0, [v]));
    FirstPrepares(before, delay, x, v, n);
  }

  /** A frame of the second: of its own input while there is some pre-filled, or a stall. */
  lemma SecondRuns(m: L.Machine<Cells, nat>, delay: nat, x: bv8, y: bv8, v: bv8, n: nat)
    requires m.pair == Cells(n + 1, n, y, x) && m.receivedHashes == [] && m.inbox.frames == map[] && m.frame == n + 1
    requires m.partnerFrame == n && !m.partnerPrepared
    ensures StepPair(delay, m).pair.first == y && StepPair(delay, m).frame == n + 1
    ensures n < delay && y == x
            && AtFrame(m.(partnerFrame := n + 1, pair := Cells(n + 1, n + 1, x, x)), delay, x, v, n + 1)
            ==> AtFrame(StepPair(delay, m), delay, x, v, n + 1)
  {
    hide G.ApplyBatch, L.TakeDueHash;
    HashesDoNothing(m, true);
    BatchesDo(m.pair, false, v);
  }

  // ---- The monitor -----------------------------------------------------------------------------

  /** The monitor with the one watch and the one freeze taken. */
  predicate Watching(l: Local, v: byte, count: nat)
  {
    && |l.traces| == 1 && l.traces[0].spec == WATCH && l.freezes == [FreezeAt(v)] && !l.suspended
    && l.restores == [(1, count)] && |l.freezeOk| == 1 && l.pendingEdits == []
  }

  function LinkedAt(n: nat, y: byte): Console { Console(OneByte(y), n, 0, false, false, false, true, [], []) }

  function Tell(n: nat, t: TraceState, y: byte): seq<Event>
  {
    if t.valid && t.value != y then [Changed(n, 7, t.value, y)] else []
  }

  lemma PassesOver(l: Local, v: byte, count: nat, n: nat, y: byte, requestChanged: bool)
    requires Watching(l, v, count) && NewFrame(l, LinkedAt(n, y))
    ensures var q := FreezePass(l, LinkedAt(n, y), requestChanged);
      && q.console == LinkedAt(n, y).(scheduled := if y == v then [] else [Write(0, [v])])
      && q.restores == [(1, if y == v then count else Counted(count))] && |q.ok| == 1 && (q.wrote <==> y != v)
  {
    hide Slice;
    ReadsOneByte(y);
    var c, w := LinkedAt(n, y), Write(0, [v]);
    assert Slice(c.memory, 0, 1) == Some([y]);
    assert Writable(c.memory, 0, 1);
    assert c.waiting + [w] == [w] && c.scheduled + [w] == [w];
    var p := Pass(c, l.restores, l.freezeOk, false);
    assert HoldAll(l.freezes, p, 1) == Hold(l.freezes, HoldAll(l.freezes, p, 0), 0);
    assert [(1, count)][0 := (1, Counted(count))] == [(1, Counted(count))];
  }

  /** A look and a pass, on a linked console. */
  lemma Acts(hash: Hash, l: Local, v: byte, count: nat, n: nat, y: byte, requestChanged: bool)
    requires Watching(l, v, count) && NewFrame(l, LinkedAt(n, y)) && !Jumped(l, LinkedAt(n, y))
    ensures var done := Act(hash, l, LinkedAt(n, y), requestChanged);
      && done.console == LinkedAt(n, y).(scheduled := if y == v then [] else [Write(0, [v])])
      && Watching(done.local, v, if y == v then count else Counted(count))
      && done.local.traces == [TraceState(WATCH, y, Some(y), true)]
      && done.generated == Tell(n, l.traces[0], y)
      && done.local.initialized && done.local.lastFrame == n && done.local.lastEpoch == 0
      && done.local.seenRequest == l.seenRequest && done.local.seenEdits == l.seenEdits
  {
    hide Slice, Decode, Pack, PostAll, FreezePass;
    PassesOver(l, v, count, n, y, requestChanged);
    ReadsOneByte(y);
    DecodesOneByte(hash, y);
    assert l.traces[..0] == [];
    assert AllFindings(hash, l.traces, OneByte(y), n) == [] + Findings(hash, l.traces[0], OneByte(y), n);
  }

  /** The whole run up to the beginning of frame `n`: the monitor, its request in force or still to be taken. */
  predicate SysAt(s: Sys, x: byte, v: byte, n: nat)
  {
    && s.shared.requestGeneration == 2 && s.shared.request == Request([WATCH], [FreezeAt(v)], false)
    && s.shared.editsGeneration == 0 && s.shared.edits == [] && s.local.seenEdits == 0 && s.books.generated == []
    && (if n == 0 then s.local == START.local
        else
          && Watching(s.local, v, Restored(n)) && s.local.traces == [TraceState(WATCH, x, Some(x), true)]
          && s.local.initialized && s.local.lastFrame == n - 1 && s.local.lastEpoch == 0 && s.local.seenRequest == 2)
  }

  /** The counter stops at its greatest value. */
  function Restored(n: nat): nat { if n < MAX_RESTORES then n else MAX_RESTORES }

  /** The service at the beginning of frame `n`, with `y` in memory. */
  lemma Serves(hash: Hash, s: Sys, x: byte, v: byte, n: nat, y: byte)
    requires SysAt(s, x, v, n) && LocalOk(s.local) && (n == 0 ==> y == x)
    ensures var m := MomentOf(LinkedAt(n, y));
      && Service(hash, s.local, s.shared, m).console.scheduled == (if y == v then [] else [Write(0, [v])])
      && Generated(hash, s.local, s.shared, m) == (if y == x then [] else [Changed(n, 7, x, y)])
      && Next(hash, s, Serve(m)).local.restores == [(1, if y == v then Restored(n) else Restored(n + 1))]
      && (y == x != v ==> SysAt(Next(hash, s, Serve(m)), x, v, n + 1))
  {
    hide Act, Flush, PostAll, Pulled, OneByte, HoldAll;
    var m := MomentOf(LinkedAt(n, y));
    var (l1, sh1, requestChanged) := Pulled(s.local, s.shared, m);
    PulledAtFirst(s, x, v, n, m);
    Acts(hash, l1, v, Restored(n), n, y, requestChanged);
    FlushMovesEvents(Act(hash, l1, LinkedAt(n, y), requestChanged).local, sh1, m, NewFrame(l1, LinkedAt(n, y)));
  }

  lemma FlushMovesEvents(l: Local, sh: Shared, m: Moment, newFrame: bool)
    ensures var (l2, sh2) := Flush(l, sh, m, newFrame);
      && l2 == l.(outbox := l2.outbox, flushNow := l2.flushNow)
         && sh2 == sh.(ring := sh2.ring, ringDropped := sh2.ringDropped)
  {
    hide PushAllRing;
  }

  lemma PulledAtFirst(s: Sys, x: byte, v: byte, n: nat, m: Moment)
    requires SysAt(s, x, v, n) && m.requestFree && m.editsFree
    ensures var (l1, sh1, requestChanged) := Pulled(s.local, s.shared, m);
      && Watching(l1, v, Restored(n)) && sh1 == s.shared && l1.seenRequest == 2 && l1.seenEdits == 0
      && l1.initialized == s.local.initialized && l1.lastFrame == s.local.lastFrame && l1.lastEpoch == s.local.lastEpoch
      && (if n == 0 then !l1.traces[0].valid else l1.traces == s.local.traces)
  {
    ClampIsWithinLimits(s.shared.request);
    assert TotalBytes([FreezeAt(v)]) == 1 + TotalBytes([FreezeAt(v)][1..]);
  }

  // ---- Together --------------------------------------------------------------------------------

  lemma BytesOf(x: bv8, v: bv8)
    ensures x != v ==> x as int != v as int
    ensures EventsOf([Write(0, [v as int])]) == [G.WriteMemory(0, [v])] && EventsOf([]) == []
  {
    var events := EventsOf([Write(0, [v as int])]);
    assert events[0].data[0] == v;
    assert events[0].data == [v];
    assert events == [events[0]];
  }

  lemma ScheduleOne(m: L.Machine<Cells, nat>, e: G.Event)
    ensures L.ScheduleAll(m, [e]) == L.Schedule(m, e)
  {
    assert [e][1..] == [];
  }

  /** Up to the frame the first write goes into: the byte still there, a write scheduled and counted every frame. */
  lemma {:induction false} WritesAndWaits(hash: Hash, delay: nat, x: bv8, v: bv8, n: nat)
    requires 1 <= delay && x != v && n <= delay
    ensures var b, xb, vb := After(hash, delay, x, v, n), x as int, v as int;
      && SysAt(b.sys, xb, vb, n) && AtFrame(b.machine, delay, x, v, n)
      && var c := Serviced(hash, b);
         && SysAt(c.sys, xb, vb, n + 1) && c.sys.local.restores == [(1, Restored(n + 1))]
         && c.machine == L.Schedule(b.machine, G.WriteMemory(0, [v]))
  {
    hide AtFrame, SysAt, Service, Next, StepPair, Generated, L.Schedule, L.ScheduleAll, EventsOf, Serviced, L.BeginLink;
    if n == 0 {
      Begins(delay, x, v);
      BeginsWatching(hash, x as int, v as int);
    } else {
      WritesAndWaits(hash, delay, x, v, n - 1);
      var before := Serviced(hash, After(hash, delay, x, v, n - 1));
      BothRun(After(hash, delay, x, v, n - 1).machine, delay, x, v, n - 1);
    }
    OneService(hash, After(hash, delay, x, v, n), delay, x, v, n);
  }

  lemma BeginsWatching(hash: Hash, x: byte, v: byte)
    ensures SysAt(Next(hash, START, UpdateRequest(Request([WATCH], [FreezeAt(v)], false))), x, v, 0)
  {
  }

  lemma BothRun(m: L.Machine<Cells, nat>, delay: nat, x: bv8, v: bv8, n: nat)
    requires AtFrame(m, delay, x, v, n) && 1 <= delay && n <= delay
    ensures var q := StepPair(delay, StepPair(delay, L.Schedule(m, G.WriteMemory(0, [v]))));
      && q.pair.first == (if n < delay then x else v) && q.frame == n + 1
      && (n < delay ==> AtFrame(q, delay, x, v, n + 1))
  {
    hide AtFrame, StepPair, L.Schedule;
    FirstRuns(m, delay, x, v, n);
    SecondRuns(StepPair(delay, L.Schedule(m, G.WriteMemory(0, [v]))), delay, x, if n < delay then x else v, v, n);
  }

  lemma OneService(hash: Hash, b: Both, delay: nat, x: bv8, v: bv8, n: nat)
    requires SysAt(b.sys, x as int, v as int, n) && AtFrame(b.machine, delay, x, v, n) && LocalOk(b.sys.local) && x != v
    ensures var c := Serviced(hash, b);
      && SysAt(c.sys, x as int, v as int, n + 1) && c.sys.local.restores == [(1, Restored(n + 1))]
      && c.machine == L.Schedule(b.machine, G.WriteMemory(0, [v]))
  {
    hide SysAt, Service, Next, Generated, L.Schedule, L.ScheduleAll, EventsOf;
    BytesOf(x, v);
    Serves(hash, b.sys, x as int, v as int, n, x as int);
    ScheduleOne(b.machine, G.WriteMemory(0, [v]));
  }

  /** Whatever the delay, the byte and the value it is frozen at: for `delay` + 1 frames every service
      counts a restore, memory is as it was, and there is nothing to tell; then the first write lands,
      and the monitor reports its own value as a change of the game. */
  lemma FrozenByteIsReported(hash: Hash, delay: nat, x: bv8, v: bv8)
    requires 1 <= delay && x != v
    ensures forall n :: 0 <= n <= delay ==>
      var b := After(hash, delay, x, v, n);
      && ConsoleOf(b.machine).memory == OneByte(x as int)
      && Serviced(hash, b).sys.local.restores == [(1, Restored(n + 1))] && Serviced(hash, b).sys.books.generated == []
    ensures var b := After(hash, delay, x, v, delay + 1);
      && ConsoleOf(b.machine).memory == OneByte(v as int)
      && Serviced(hash, b).sys.local.restores == [(1, Restored(delay + 1))]
      && Serviced(hash, b).sys.books.generated == [Changed(delay + 1, 7, x as int, v as int)]
  {
    hide Service, Generated, LeftAfter, OneByte, Watching, StepPair, L.Schedule, L.ScheduleAll, EventsOf;
    forall n | 0 <= n <= delay
      ensures var b := After(hash, delay, x, v, n);
        && ConsoleOf(b.machine).memory == OneByte(x as int)
        && Serviced(hash, b).sys.local.restores == [(1, Restored(n + 1))] && Serviced(hash, b).sys.books.generated == []
    {
      WritesAndWaits(hash, delay, x, v, n);
    }
    WritesAndWaits(hash, delay, x, v, delay);
    BothRun(After(hash, delay, x, v, delay).machine, delay, x, v, delay);
    BytesOf(x, v);
    Serves(hash, After(hash, delay, x, v, delay + 1).sys, x as int, v as int, delay + 1, v as int);
  }
}
