/**
  The monitor's whole-run claims: reports are exact, nothing is lost uncounted, frozen values hold.
 */
module MonitorTheorems {
  import opened Words
  import opened Wrappers
  import opened MonitorMemory
  import opened MonitorValues
  import opened MonitorWrites
  import opened Monitor
  import opened MonitorRun

  /** The monitor, what it shares, memory as it was last left, and the books. */
  datatype Sys = Sys(local: Local, shared: Shared, left: Option<Memory>, books: Books)

  /** The core thread serves at some moment; the tools ask for something, or take what there is. */
  datatype Step =
    | Serve(moment: Moment)
    | UpdateRequest(request: Request)
    | PushEdit(edit: Edit)
    | DiscardEdits
    | DrainEvents

  const IDLE := Request([], [], false)

  const START := Sys(
    Local([], [], false, [], [], [], Outbox([], 0), false, false, 0, 0, 0, 0),
    Shared(IDLE, 1, [], 0, [], 0),
    None,
    Books([], 0, []))

  predicate StepOk(step: Step) { step.Serve? ==> MomentOk(step.moment) }

  function Next(hash: Hash, s: Sys, step: Step): Sys
    requires LocalOk(s.local) && StepOk(step)
    ensures LocalOk(Next(hash, s, step).local)
  {
    match step
    case Serve(m) =>
      var o := Service(hash, s.local, s.shared, m);
      Sys(o.local, o.shared, LeftAfter(hash, s, m),
          s.books.(generated := s.books.generated + Generated(hash, s.local, s.shared, m)))
    case UpdateRequest(r) => s.(shared := s.shared.(request := r, requestGeneration := s.shared.requestGeneration + 1))
    case PushEdit(e) =>
      s.(shared := s.shared.(edits := s.shared.edits + [e], editsGeneration := s.shared.editsGeneration + 1))
    case DiscardEdits => s.(shared := s.shared.(edits := []))
    case DrainEvents =>
      s.(shared := s.shared.(ring := [], ringDropped := 0),
         books := s.books.(delivered := s.books.delivered + s.shared.ring, told := s.books.told + s.shared.ringDropped))
  }

  /** Memory as last left by a service that looked at it or wrote it. */
  function LeftAfter(hash: Hash, s: Sys, m: Moment): Option<Memory>
    requires LocalOk(s.local) && MomentOk(m)
  {
    if Skipped(m) then s.left
    else
      var (l1, _, requestChanged) := Pulled(s.local, s.shared, m);
      LeftBy(hash, l1, ConsoleFor(l1, requestChanged, m), requestChanged, s.left)
  }

  predicate Inv(hash: Hash, s: Sys)
  {
    && LocalOk(s.local)
    && Baselines(hash, s.local.traces, s.left)
    && Conserved(s.local.outbox, s.shared.ring, s.shared.ringDropped, s.books)
  }

  lemma ServeKeepsInv(hash: Hash, s: Sys, m: Moment)
    requires Inv(hash, s) && MomentOk(m)
    ensures Inv(hash, Next(hash, s, Serve(m)))
  {
    hide Baselines, Conserved, HoldAll, ApplyEdits, AllLooked, Observed;
    if Skipped(m) {
      assert s.books.generated + [] == s.books.generated;
    } else {
      PulledKeepsBaselines(hash, s.local, s.shared, m, s.left);
      var (l1, sh1, requestChanged) := Pulled(s.local, s.shared, m);
      var c := ConsoleFor(l1, requestChanged, m);
      ActKeepsBaselines(hash, l1, c, requestChanged, s.left);
      var done := Act(hash, l1, c, requestChanged);
      PostConserves(l1.outbox, sh1.ring, sh1.ringDropped, s.books, done.generated);
      FlushConserves(done.local, sh1, m, NewFrame(l1, c), s.books.(generated := s.books.generated + done.generated));
    }
  }

  lemma NextKeepsInv(hash: Hash, s: Sys, step: Step)
    requires Inv(hash, s) && StepOk(step)
    ensures Inv(hash, Next(hash, s, step))
  {
    if step.Serve? {
      ServeKeepsInv(hash, s, step.moment);
    } else if step.DrainEvents? {
      assert s.books.delivered + s.shared.ring + [] + s.local.outbox.events
          == s.books.delivered + s.shared.ring + s.local.outbox.events;
    }
  }

  function RunAll(hash: Hash, s: Sys, steps: seq<Step>): Sys
    requires LocalOk(s.local) && forall k :: 0 <= k < |steps| ==> StepOk(steps[k])
    decreases |steps|
  {
    if steps == [] then s else RunAll(hash, Next(hash, s, steps[0]), steps[1..])
  }

  lemma {:induction false} RunKeepsInv(hash: Hash, s: Sys, steps: seq<Step>)
    requires Inv(hash, s) && forall k :: 0 <= k < |steps| ==> StepOk(steps[k])
    ensures Inv(hash, RunAll(hash, s, steps))
    decreases |steps|
  {
    hide Next, StepOk, Baselines, Conserved;
    if steps != [] {
      NextKeepsInv(hash, s, steps[0]);
      RunKeepsInv(hash, Next(hash, s, steps[0]), steps[1..]);
    }
  }

  ghost predicate Reachable(hash: Hash, s: Sys)
  {
    exists steps: seq<Step> :: (forall k :: 0 <= k < |steps| ==> StepOk(steps[k])) && s == RunAll(hash, START, steps)
  }

  lemma ReachableInv(hash: Hash, s: Sys)
    requires Reachable(hash, s)
    ensures Inv(hash, s)
  {
    var steps: seq<Step> :| (forall k :: 0 <= k < |steps| ==> StepOk(steps[k])) && s == RunAll(hash, START, steps);
    RunKeepsInv(hash, START, steps);
  }

  // ---- Nothing is lost uncounted ---------------------------------------------------------------

  /** At any point of any run: what was drained, then what is in the ring, then what is still local
      are the events generated, in that order, but for those dropped; those are counted, once, in
      what the drains reported or are yet to report; and the ring is bounded. */
  lemma EventsAreConserved(hash: Hash, s: Sys)
    requires Reachable(hash, s)
    ensures Within(s.books.delivered + s.shared.ring + s.local.outbox.events, s.books.generated)
    ensures |s.books.generated| - |s.books.delivered + s.shared.ring + s.local.outbox.events|
            == s.books.told + s.shared.ringDropped + s.local.outbox.dropped
    ensures |s.shared.ring| <= EVENT_RING_CAPACITY
  {
    ReachableInv(hash, s);
  }

  // ---- Reports are exact -----------------------------------------------------------------------

  /** A watch tells of a change when its reading now is not its baseline. */
  predicate Tells(hash: Hash, t: TraceState, m: Memory)
    requires Shaped(m)
  {
    t.valid && Read(m, t.spec.path, t.spec.len).Some? && t.value != Pack(hash, Read(m, t.spec.path, t.spec.len).value)
  }

  lemma {:induction false} FoundAtSomeWatch(hash: Hash, traces: seq<TraceState>, m: Memory, frame: nat, e: Event)
    requires Shaped(m)
    ensures e in AllFindings(hash, traces, m, frame) <==>
            exists i :: 0 <= i < |traces| && e in Findings(hash, traces[i], m, frame)
    decreases |traces|
  {
    hide Findings;
    if traces != [] {
      var init, t := traces[..|traces| - 1], traces[|traces| - 1];
      FoundAtSomeWatch(hash, init, m, frame, e);
      assert traces == init + [t];
      if e in AllFindings(hash, init, m, frame) {
        var i :| 0 <= i < |init| && e in Findings(hash, init[i], m, frame);
        assert traces[i] == init[i];
      }
      if i :| 0 <= i < |traces| && e in Findings(hash, traces[i], m, frame) {
        assert i == |init| || init[i] == traces[i];
      }
    }
  }

  lemma OneFinding(hash: Hash, t: TraceState, m: Memory, frame: nat, e: Event)
    requires Shaped(m)
    ensures e.Changed? ==> (e in Findings(hash, t, m, frame) <==>
              Tells(hash, t, m) && e == Changed(frame, t.spec.id, t.value, Looked(hash, t, m).value))
    ensures e.PausedByCondition? ==> (e in Findings(hash, t, m, frame) <==>
              ConditionFires(hash, t, m) && e == PausedByCondition(frame, t.spec.id))
  {
    hide Fires, Read, Decode, Pack;
  }

  lemma FindingsAreExact(hash: Hash, traces: seq<TraceState>, m: Memory, frame: nat, e: Event)
    requires Shaped(m) && e.Changed?
    ensures e in AllFindings(hash, traces, m, frame) <==>
            exists i :: 0 <= i < |traces| && Tells(hash, traces[i], m)
                        && e == Changed(frame, traces[i].spec.id, traces[i].value, Looked(hash, traces[i], m).value)
  {
    hide Findings, AllFindings, Tells, Looked;
    FoundAtSomeWatch(hash, traces, m, frame, e);
    forall i | 0 <= i < |traces|
      ensures e in Findings(hash, traces[i], m, frame) <==>
              Tells(hash, traces[i], m)
              && e == Changed(frame, traces[i].spec.id, traces[i].value, Looked(hash, traces[i], m).value)
    {
      OneFinding(hash, traces[i], m, frame, e);
    }
  }

  lemma {:induction false} AnswersAreNoChanges(c: Console, edits: seq<Edit>)
    requires Shaped(c.memory)
    ensures forall e :: e in ApplyEdits(c, edits).1 ==> e.Written? || e.WriteFailed?
  {
    if edits != [] {
      AnswersAreNoChanges(c, edits[..|edits| - 1]);
    }
  }

  /** A change is generated exactly when, at a new frame that memory was not replaced in, a watch
      with a baseline can be read and reads something else than memory held when the monitor
      last left it. A state load is therefore never reported, nor is a write of the monitor's own that
      was made when it was left: `OwnWritesAreReported` says when that is. */
  lemma ReportsAreExact(hash: Hash, s: Sys, m: Moment, e: Event)
    requires Reachable(hash, s) && MomentOk(m) && !Skipped(m) && e.Changed?
    ensures LocalOk(s.local)
    ensures var (l1, _, requestChanged) := Pulled(s.local, s.shared, m);
            var c := ConsoleFor(l1, requestChanged, m);
            e in Generated(hash, s.local, s.shared, m) <==>
              && NewFrame(l1, c) && !Jumped(l1, c)
              && exists i :: 0 <= i < |l1.traces| && WasThere(hash, s.left, l1.traces[i], c, e)
  {
    hide HoldAll, ApplyEdits, AllLooked, Conserved, AllFindings, PostAll, Read, Pack, Reachable, Clamp;
    ReachableInv(hash, s);
    PulledKeepsBaselines(hash, s.local, s.shared, m, s.left);
    var (l1, _, requestChanged) := Pulled(s.local, s.shared, m);
    var c := ConsoleFor(l1, requestChanged, m);
    AnswersAreNoChanges(FreezePass(l1, c, requestChanged).console, l1.pendingEdits);
    assert e in Generated(hash, s.local, s.shared, m) <==> e in Observed(hash, l1, c);
    FindingsAreExact(hash, l1.traces, c.memory, c.frame, e);
    forall i | 0 <= i < |l1.traces|
      ensures WasThere(hash, s.left, l1.traces[i], c, e) <==>
              Tells(hash, l1.traces[i], c.memory)
              && e == Changed(c.frame, l1.traces[i].spec.id, l1.traces[i].value,
                              Looked(hash, l1.traces[i], c.memory).value)
    {
      assert BaselineOf(hash, l1.traces[i], s.left);
    }
  }

  /** `e` is the change of this watch from what memory was left as to what the console holds. */
  predicate WasThere(hash: Hash, left: Option<Memory>, t: TraceState, c: Console, e: Event)
    requires Shaped(c.memory)
  {
    && t.valid && left.Some? && Shaped(left.value)
    && Read(left.value, t.spec.path, t.spec.len).Some? && Read(c.memory, t.spec.path, t.spec.len).Some?
    && var before := Pack(hash, Read(left.value, t.spec.path, t.spec.len).value);
       var now := Pack(hash, Read(c.memory, t.spec.path, t.spec.len).value);
       before != now && e == Changed(c.frame, t.spec.id, before, now)
  }

  /** Between one look and the next, with the same request: every watch that can be read at both
      ends tells of a change exactly when the memory the first service left and the memory the
      second one finds differ for it, and a watch's condition is judged on those two readings. */
  lemma TwoBoundaries(hash: Hash, s: Sys, m1: Moment, m2: Moment)
    requires Reachable(hash, s) && MomentOk(m1) && MomentOk(m2) && !Skipped(m1) && !Skipped(m2)
    ensures LocalOk(s.local)
    ensures var (l1, _, changed1) := Pulled(s.local, s.shared, m1);
            var s2 := Next(hash, s, Serve(m1));
            var (l2, _, changed2) := Pulled(s2.local, s2.shared, m2);
            var c1, c2 := ConsoleFor(l1, changed1, m1), ConsoleFor(l2, changed2, m2);
            var end := Service(hash, s.local, s.shared, m1).console.memory;
            NewFrame(l1, c1) && !changed2 && NewFrame(l2, c2) && !Jumped(l2, c2) ==>
              && Shaped(end)
              && |l2.traces| == |l1.traces|
              && (forall i :: 0 <= i < |l2.traces| ==>
                    var t := l2.traces[i];
                    && t.spec == l1.traces[i].spec
                    && (t.valid <==> Read(end, t.spec.path, t.spec.len).Some?)
                    && (t.valid ==> t.value == Pack(hash, Read(end, t.spec.path, t.spec.len).value)
                                    && t.decoded == Decode(t.spec.decode, Read(end, t.spec.path, t.spec.len).value)))
              && Observed(hash, l2, c2) == AllFindings(hash, l2.traces, c2.memory, c2.frame)
  {
    hide HoldAll, ApplyEdits, AllLooked, Conserved, Observed, PushAllRing, PostAll;
    ReachableInv(hash, s);
    PulledKeepsBaselines(hash, s.local, s.shared, m1, s.left);
    var (l1, _, changed1) := Pulled(s.local, s.shared, m1);
    var c1 := ConsoleFor(l1, changed1, m1);
    ActKeepsBaselines(hash, l1, c1, changed1, s.left);
    var s2 := Next(hash, s, Serve(m1));
    var (l2, _, changed2) := Pulled(s2.local, s2.shared, m2);
    var c2 := ConsoleFor(l2, changed2, m2);
    if NewFrame(l1, c1) && !changed2 && NewFrame(l2, c2) && !Jumped(l2, c2) {
      var end := Service(hash, s.local, s.shared, m1).console.memory;
      assert l2.traces == s2.local.traces == Act(hash, l1, c1, changed1).local.traces;
      forall i | 0 <= i < |l2.traces| ensures UpToDate(hash, l2.traces[i], end) {
      }
      ObservedIsFindings(hash, l2, c2);
    }
  }

  lemma ObservedIsFindings(hash: Hash, l: Local, c: Console)
    requires Shaped(c.memory) && NewFrame(l, c) && !Jumped(l, c)
    ensures Observed(hash, l, c) == AllFindings(hash, l.traces, c.memory, c.frame)
  {
  }

  // ---- The monitor's own writes ----------------------------------------------------------------

  /** Two looks, one right after the other as far as the monitor goes: the second finds a new frame, no
      new request, and no state load in between. */
  predicate NextLook(hash: Hash, s: Sys, m1: Moment, m2: Moment)
    requires LocalOk(s.local) && MomentOk(m1) && MomentOk(m2)
  {
    !Skipped(m1) && !Skipped(m2) &&
    var (l1, _, changed1) := Pulled(s.local, s.shared, m1);
    var s2 := Next(hash, s, Serve(m1));
    var (l2, _, changed2) := Pulled(s2.local, s2.shared, m2);
    var c2 := ConsoleFor(l2, changed2, m2);
    NewFrame(l1, ConsoleFor(l1, changed1, m1)) && !changed2 && NewFrame(l2, c2) && !Jumped(l2, c2)
  }

  /** The console the second look is at. */
  function FoundBy(hash: Hash, s: Sys, m1: Moment, m2: Moment): Console
    requires LocalOk(s.local) && MomentOk(m1) && MomentOk(m2)
  {
    var s2 := Next(hash, s, Serve(m1));
    var (l2, _, changed2) := Pulled(s2.local, s2.shared, m2);
    ConsoleFor(l2, changed2, m2)
  }

  /** A watch that reads something in both memories, and not the same. */
  predicate ReadsApart(hash: Hash, spec: TraceSpec, before: Memory, after: Memory)
    requires Shaped(before) && Shaped(after)
  {
    && Read(before, spec.path, spec.len).Some? && Read(after, spec.path, spec.len).Some?
    && Pack(hash, Read(before, spec.path, spec.len).value) != Pack(hash, Read(after, spec.path, spec.len).value)
  }

  /** Suppose the game leaves memory alone between two looks, and of the writes owed when the first was
      over some, in order, have been made by the second. Then the second reports as changes of the
      game exactly those of them that a watch can tell. */
  lemma OwnWritesAreReported(hash: Hash, s: Sys, m1: Moment, m2: Moment, landed: seq<Write>)
    requires Reachable(hash, s) && MomentOk(m1) && MomentOk(m2) && LocalOk(s.local) && NextLook(hash, s, m1, m2)
    requires var end := Service(hash, s.local, s.shared, m1).console;
      Shaped(end.memory) && landed <= Owed(end) && FoundBy(hash, s, m1, m2).memory == WriteAll(end.memory, landed)
    ensures var end := Service(hash, s.local, s.shared, m1).console;
      var s2 := Next(hash, s, Serve(m1));
      forall e: Event :: e.Changed? ==>
        (e in Generated(hash, s2.local, s2.shared, m2) <==>
         exists i ::
         0 <= i < |s2.local.traces| && ReportOf(hash, s2.local.traces[i].spec, end.memory, WriteAll(end.memory, landed),
                                                            FoundBy(hash, s, m1, m2).frame, e))
  {
    hide HoldAll, ApplyEdits, AllLooked, Conserved, Observed, PushAllRing, PostAll, Reachable, WriteAll, Read, Pack,
         AllFindings;
    TwoBoundaries(hash, s, m1, m2);
    var s2 := Next(hash, s, Serve(m1));
    var (l2, _, changed2) := Pulled(s2.local, s2.shared, m2);
    var c2 := FoundBy(hash, s, m1, m2);
    AnswersAreNoChanges(FreezePass(l2, c2, changed2).console, l2.pendingEdits);
    assert l2.traces == s2.local.traces;
    forall e: Event | e.Changed?
      ensures e in Generated(hash, s2.local, s2.shared, m2) <==>
              exists i ::
              0 <= i < |l2.traces|
              && ReportOf(hash, l2.traces[i].spec, Service(hash, s.local, s.shared, m1).console.memory, c2.memory,
                          c2.frame, e)
    {
      assert e in Generated(hash, s2.local, s2.shared, m2) <==> e in Observed(hash, l2, c2);
      FindingsAreExact(hash, l2.traces, c2.memory, c2.frame, e);
    }
  }

  predicate ReportOf(hash: Hash, spec: TraceSpec, before: Memory, after: Memory, frame: nat, e: Event)
    requires Shaped(before) && Shaped(after)
  {
    && ReadsApart(hash, spec, before, after)
    && e == Changed(frame, spec.id, Pack(hash, Read(before, spec.path, spec.len).value),
                    Pack(hash, Read(after, spec.path, spec.len).value))
  }

  /** On a console at a boundary of its own with nothing owed, nothing is owed after a service either;
      on one that is not, a service leaves memory alone and owes every write it took: so whether its own
      writes can be reported is decided by where the console was, before the service. */
  lemma WhatAServiceOwes(hash: Hash, l: Local, c: Console, requestChanged: bool)
    requires LocalOk(l) && Shaped(c.memory)
    ensures var end := Act(hash, l, c, requestChanged).console;
      && SameButWrites(c, end)
      && (AtOnce(c) && NothingOwed(c) ==> NothingOwed(end))
      && (!AtOnce(c) ==> end.memory == c.memory && Owed(c) <= Owed(end))
      && (c.playingBack ==> end == c)
  {
    hide Observed, AllLooked, PostAll, HoldAll, ApplyEdits, AtOnce, NothingOwed, Owed;
    var p := Pass(c, l.restores, l.freezeOk, false);
    PassOwes(l.freezes, p, |l.freezes|);
    EditsOwe(FreezePass(l, c, requestChanged).console, l.pendingEdits);
    OwesTransitive(c, FreezePass(l, c, requestChanged).console, Act(hash, l, c, requestChanged).console);
  }

  /** What any number of writes leave of a console. */
  predicate OnlyWrites(c: Console, d: Console)
    requires Shaped(c.memory)
  {
    && SameButWrites(c, d)
    && (AtOnce(c) && NothingOwed(c) ==> NothingOwed(d))
    && (!AtOnce(c) ==> d.memory == c.memory && Owed(c) <= Owed(d))
    && (c.playingBack ==> d == c)
  }

  lemma OwesTransitive(c: Console, d: Console, e: Console)
    requires Shaped(c.memory) && Shaped(d.memory) && OnlyWrites(c, d) && OnlyWrites(d, e)
    ensures OnlyWrites(c, e)
  {
  }

  lemma WriteOwes(c: Console, w: Write)
    requires Shaped(c.memory)
    ensures OnlyWrites(c, c) && OnlyWrites(c, EnqueueWrite(c, w).0)
  {
    hide WriteAll;
    if !c.playingBack {
      WriteIsMadeOrOwed(c, w);
    }
  }

  lemma {:induction false} PassOwes(freezes: seq<Freeze>, p: Pass, n: nat)
    requires PassOk(freezes, p) && n <= |freezes|
    ensures OnlyWrites(p.console, HoldAll(freezes, p, n).console)
  {
    hide OnlyWrites, EnqueueWrite;
    WriteOwes(p.console, Write(0, []));
    if n > 0 {
      PassOwes(freezes, p, n - 1);
      var before := HoldAll(freezes, p, n - 1);
      var address := Resolve(freezes[n - 1].path, before.console.memory);
      WriteOwes(before.console, Write(if address.Some? then address.value else 0, freezes[n - 1].bytes));
      OwesTransitive(p.console, before.console, HoldAll(freezes, p, n).console);
    }
  }

  lemma {:induction false} EditsOwe(c: Console, edits: seq<Edit>)
    requires Shaped(c.memory)
    ensures OnlyWrites(c, ApplyEdits(c, edits).0)
  {
    hide OnlyWrites, EnqueueWrite;
    WriteOwes(c, Write(0, []));
    if edits != [] {
      var init, e := edits[..|edits| - 1], edits[|edits| - 1];
      EditsOwe(c, init);
      var before := ApplyEdits(c, init).0;
      var address := Resolve(e.path, before.memory);
      WriteOwes(before, Write(if address.Some? then address.value else 0, e.data));
      OwesTransitive(c, before, ApplyEdits(c, edits).0);
    }
  }

  /** So between two looks with nothing done by the game, a service at a boundary of its own with nothing
      owed is followed by no report at all. */
  lemma OwnWritesMadeAtOnceAreSilent(hash: Hash, s: Sys, m1: Moment, m2: Moment, landed: seq<Write>, e: Event)
    requires Reachable(hash, s) && MomentOk(m1) && MomentOk(m2) && LocalOk(s.local) && NextLook(hash, s, m1, m2)
    requires var (l1, _, changed1) := Pulled(s.local, s.shared, m1);
      AtOnce(ConsoleFor(l1, changed1, m1)) && NothingOwed(ConsoleFor(l1, changed1, m1))
    requires var end := Service(hash, s.local, s.shared, m1).console;
      Shaped(end.memory) && landed <= Owed(end) && FoundBy(hash, s, m1, m2).memory == WriteAll(end.memory, landed)
    ensures var s2 := Next(hash, s, Serve(m1)); e in Generated(hash, s2.local, s2.shared, m2) ==> !e.Changed?
  {
    hide Act, Generated, Reachable, Read, Pack, FoundBy, AtOnce;
    var (l1, _, changed1) := Pulled(s.local, s.shared, m1);
    PulledKeepsShape(s.local, s.shared, m1);
    WhatAServiceOwes(hash, l1, ConsoleFor(l1, changed1, m1), changed1);
    assert landed == [];
    OwnWritesAreReported(hash, s, m1, m2, landed);
  }

  lemma PulledKeepsShape(l: Local, sh: Shared, m: Moment)
    requires LocalOk(l)
    ensures LocalOk(Pulled(l, sh, m).0)
  {
  }

  // ---- Pauses ----------------------------------------------------------------------------------

  predicate ConditionFires(hash: Hash, t: TraceState, m: Memory)
    requires Shaped(m)
  {
    Tells(hash, t, m) && t.spec.pauseWhen.Some?
    && Fires(t.spec.pauseWhen.value, t.decoded, Decode(t.spec.decode, Read(m, t.spec.path, t.spec.len).value), true)
  }

  lemma FindingsPause(hash: Hash, traces: seq<TraceState>, m: Memory, frame: nat)
    requires Shaped(m)
    ensures Pausing(AllFindings(hash, traces, m, frame)) <==>
            exists i :: 0 <= i < |traces| && ConditionFires(hash, traces[i], m)
  {
    hide Findings, AllFindings, ConditionFires;
    if Pausing(AllFindings(hash, traces, m, frame)) {
      var e :| e in AllFindings(hash, traces, m, frame) && e.PausedByCondition?;
      FoundAtSomeWatch(hash, traces, m, frame, e);
      var i :| 0 <= i < |traces| && e in Findings(hash, traces[i], m, frame);
      OneFinding(hash, traces[i], m, frame, e);
    }
    if i :| 0 <= i < |traces| && ConditionFires(hash, traces[i], m) {
      var e := PausedByCondition(frame, traces[i].spec.id);
      OneFinding(hash, traces[i], m, frame, e);
      FoundAtSomeWatch(hash, traces, m, frame, e);
      assert e in AllFindings(hash, traces, m, frame) && e.PausedByCondition?;
    }
  }

  /** A service asks for a pause exactly when, at a new frame that memory was not replaced in, some watch
      tells of a change that its condition fires for: never at a state load or between frames. */
  lemma PausesWhenAConditionFires(hash: Hash, l: Local, sh: Shared, m: Moment)
    requires LocalOk(l) && MomentOk(m)
    ensures var (l1, _, requestChanged) := Pulled(l, sh, m);
      var c := ConsoleFor(l1, requestChanged, m);
      Service(hash, l, sh, m).pause <==>
        && !Skipped(m) && NewFrame(l1, c) && !Jumped(l1, c)
        && exists i :: 0 <= i < |l1.traces| && ConditionFires(hash, l1.traces[i], c.memory)
  {
    hide AllFindings, ConditionFires, AllLooked, HoldAll, ApplyEdits, PostAll, Flush;
    var (l1, _, requestChanged) := Pulled(l, sh, m);
    var c := ConsoleFor(l1, requestChanged, m);
    PulledKeepsShape(l, sh, m);
    FindingsPause(hash, l1.traces, c.memory, c.frame);
    assert !Pausing([]) && !Pausing([Discontinuity(c.frame)]);
  }

  /** A request that reads a kept watch another way keeps the number it was read as before. Among any
      traces as a look left them, the watch then pauses falsely, where it would not have, had it been
      looked at the new way, exactly when its bytes changed and its condition fires from the old
      number but not from the new one. */
  lemma RedecodedBaseline(hash: Hash, traces: seq<TraceState>, k: nat, spec: TraceSpec, left: Memory, m: Memory)
    requires Shaped(left) && Shaped(m) && AllUpToDate(hash, traces, left)
    requires k < |traces| && SameWatch(traces[k].spec, spec) && forall j :: 0 <= j < k ==>
             !SameWatch(traces[j].spec, spec)
    ensures var t := Baseline(traces, spec);
      (ConditionFires(hash, t, m) && !ConditionFires(hash, Looked(hash, t, left), m)) <==>
        && ReadsApart(hash, spec, left, m) && spec.pauseWhen.Some?
        && var was, now := Read(left, spec.path, spec.len).value, Read(m, spec.path, spec.len).value;
           && Fires(spec.pauseWhen.value, Decode(traces[k].spec.decode, was), Decode(spec.decode, now), true)
           && !Fires(spec.pauseWhen.value, Decode(spec.decode, was), Decode(spec.decode, now), true)
  {
    hide Fires, Decode, Pack, Read;
    KeptBaseline(traces, spec, k);
    assert UpToDate(hash, traces[k], left);
  }

  lemma {:induction false} KeptBaseline(traces: seq<TraceState>, spec: TraceSpec, k: nat)
    requires k < |traces| && SameWatch(traces[k].spec, spec) && forall j :: 0 <= j < k ==>
             !SameWatch(traces[j].spec, spec)
    ensures Baseline(traces, spec) == traces[k].(spec := spec)
  {
    if k > 0 {
      KeptBaseline(traces[1..], spec, k - 1);
    }
  }

  /** So a watch already below zero can pause again as if it had just gone there: a byte that goes
      from -1 to -2, once read as unsigned, now as signed. */
  lemma RedecodedPause(hash: Hash)
    ensures var was := TraceSpec(1, ZERO, 1, UNSIGNED, None);
            var now := TraceSpec(1, ZERO, 1, SIGNED, Some(LessThan(0)));
            var t := Looked(hash, TraceState(was, 0, None, false), OneByte(0xFF));
            && Decode(SIGNED, [0xFF]) == Some(-1)
            && Findings(hash, Baseline([t], now), OneByte(0xFE), 0)
               == [Changed(0, 1, 0xFF, 0xFE), PausedByCondition(0, 1)]
            && Findings(hash, Looked(hash, Baseline([t], now), OneByte(0xFF)), OneByte(0xFE), 0)
               == [Changed(0, 1, 0xFF, 0xFE)]
  {
    hide Decode, Pack, Read;
    ReadsOneByte(0xFF);
    ReadsOneByte(0xFE);
    DecodesOneByte(hash, 0xFF);
    DecodesOneByte(hash, 0xFE);
  }

  const ZERO := AddressPath(0, [])
  const UNSIGNED := ValueDecode(false, false, false)
  const SIGNED := ValueDecode(false, true, false)

  function OneByte(b: byte): (m: Memory)
    ensures Shaped(m)
  {
    Memory([Region(0, 1, true)], [[b]])
  }

  lemma ReadsOneByte(b: byte)
    ensures Read(OneByte(b), ZERO, 1) == Some([b])
  {
    assert OneByte(b).data[0][0..1] == [b];
  }

  lemma DecodesOneByte(hash: Hash, b: byte)
    ensures Decode(UNSIGNED, [b]) == Some(b as int) && Pack(hash, [b]) == b
    ensures Decode(SIGNED, [b]) == Some(if b >= 0x80 then b - 0x100 else b)
  {
    assert Reversed([b]) == [b] && Pow256(1) == 0x100;
    assert BigEndian([b]) == b && LittleEndian([b]) == b;
  }
}
