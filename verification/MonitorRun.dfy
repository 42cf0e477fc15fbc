/**
  What the monitor reports, holds and drops over whole runs, whatever the game does to memory
  between services and however the two threads interleave.
 */
module MonitorRun {
  import opened Words
  import opened Wrappers
  import opened MonitorMemory
  import opened MonitorValues
  import opened MonitorWrites
  import opened Monitor

  // ---- Events are kept in order ----------------------------------------------------------------

  /** `part` is `whole` with some elements left out. */
  predicate Within<T(==)>(part: seq<T>, whole: seq<T>)
    decreases |whole|
  {
    if part == [] then true
    else if whole == [] then false
    else (part[|part| - 1] == whole[|whole| - 1] && Within(part[..|part| - 1], whole[..|whole| - 1]))
         || Within(part, whole[..|whole| - 1])
  }

  lemma WithinGrows<T>(part: seq<T>, whole: seq<T>, x: T)
    requires Within(part, whole)
    ensures Within(part + [x], whole + [x]) && Within(part, whole + [x])
  {
    assert (part + [x])[..|part|] == part && (whole + [x])[..|whole|] == whole;
  }

  lemma {:induction false} WithinDropsOne<T>(part: seq<T>, whole: seq<T>, i: nat)
    requires Within(part, whole) && i < |part|
    ensures Within(part[..i] + part[i + 1..], whole)
    decreases |whole|
  {
    var less := part[..i] + part[i + 1..];
    var init, winit := part[..|part| - 1], whole[..|whole| - 1];
    if part[|part| - 1] == whole[|whole| - 1] && Within(init, winit) {
      if i == |part| - 1 {
        assert less == init;
      } else {
        WithinDropsOne(init, winit, i);
        assert less[|less| - 1] == whole[|whole| - 1];
        assert less[..|less| - 1] == init[..i] + init[i + 1..];
      }
    } else {
      WithinDropsOne(part, winit, i);
    }
  }

  /** The books over a whole run: what was handed to the reader, and what there was to tell. */
  datatype Books = Books(delivered: seq<Event>, told: nat, generated: seq<Event>)

  /** Everything generated is delivered, in the ring or still local, in the order it was generated,
      or it was counted as dropped, once. */
  predicate Conserved(o: Outbox, ring: seq<Event>, ringDropped: nat, b: Books)
  {
    && Within(b.delivered + ring + o.events, b.generated)
    && |b.generated| == |b.delivered| + |ring| + |o.events| + b.told + ringDropped + o.dropped
    && |ring| <= EVENT_RING_CAPACITY
  }

  lemma {:induction false} PostConserves(o: Outbox, ring: seq<Event>, ringDropped: nat, b: Books, events: seq<Event>)
    requires Conserved(o, ring, ringDropped, b)
    ensures Conserved(PostAll(o, events), ring, ringDropped, b.(generated := b.generated + events))
    decreases |events|
  {
    hide Within;
    if events == [] {
      assert b.generated + events == b.generated;
    } else {
      var init, e := events[..|events| - 1], events[|events| - 1];
      PostConserves(o, ring, ringDropped, b, init);
      var before := PostAll(o, init);
      assert b.generated + events == (b.generated + init) + [e];
      WithinGrows(b.delivered + ring + before.events, b.generated + init, e);
      assert b.delivered + ring + (before.events + [e]) == b.delivered + ring + before.events + [e];
    }
  }

  lemma {:induction false} PushConserves(o: Outbox, ring: seq<Event>, ringDropped: nat, b: Books, n: nat)
    requires Conserved(o, ring, ringDropped, b) && n <= |o.events|
    ensures var (r, d) := PushAllRing(ring, ringDropped, o.events[..n]);
            Conserved(o.(events := o.events[n..]), r, d, b)
  {
    hide Within, PushRing;
    if n == 0 {
      assert o.events[0..] == o.events;
    } else {
      hide PushAllRing;
      PushConserves(o, ring, ringDropped, b, n - 1);
      var (r, d) := PushAllRing(ring, ringDropped, o.events[..n - 1]);
      PushAllRingStep(ring, ringDropped, o.events, n);
      PushOneConserves(o.(events := o.events[n - 1..]), r, d, b);
      assert o.events[n - 1..][1..] == o.events[n..] && o.events[n - 1..][0] == o.events[n - 1];
    }
  }

  lemma PushAllRingStep(ring: seq<Event>, dropped: nat, events: seq<Event>, n: nat)
    requires 0 < n <= |events|
    ensures var (r, d) := PushAllRing(ring, dropped, events[..n - 1]);
            PushAllRing(ring, dropped, events[..n]) == PushRing(r, d, events[n - 1])
  {
    assert events[..n][..n - 1] == events[..n - 1];
  }

  lemma PushOneConserves(o: Outbox, ring: seq<Event>, dropped: nat, b: Books)
    requires Conserved(o, ring, dropped, b) && o.events != []
    ensures var (r, d) := PushRing(ring, dropped, o.events[0]);
            Conserved(o.(events := o.events[1..]), r, d, b)
  {
    hide Within;
    var kept := b.delivered + ring + o.events;
    if |ring| >= EVENT_RING_CAPACITY {
      WithinDropsOne(kept, b.generated, |b.delivered|);
      assert b.delivered + (ring[1..] + [o.events[0]]) + o.events[1..]
          == kept[..|b.delivered|] + kept[|b.delivered| + 1..];
    } else {
      assert b.delivered + (ring + [o.events[0]]) + o.events[1..] == kept;
    }
  }

  lemma FlushConserves(l: Local, sh: Shared, m: Moment, newFrame: bool, b: Books)
    requires Conserved(l.outbox, sh.ring, sh.ringDropped, b)
    ensures var (l2, sh2) := Flush(l, sh, m, newFrame); Conserved(l2.outbox, sh2.ring, sh2.ringDropped, b)
  {
    hide Within, PushAllRing;
    PushConserves(l.outbox, sh.ring, sh.ringDropped, b, |l.outbox.events|);
    assert l.outbox.events[..|l.outbox.events|] == l.outbox.events;
    var r := PushAllRing(sh.ring, sh.ringDropped, l.outbox.events).0;
    assert b.delivered + r + l.outbox.events[|l.outbox.events|..] == b.delivered + r + [];
  }

  // ---- Baselines -------------------------------------------------------------------------------

  /** A baseline is what its watch read in memory as it was last left. */
  predicate BaselineOf(hash: Hash, t: TraceState, left: Option<Memory>)
  {
    t.valid ==>
      && left.Some? && Shaped(left.value)
      && Read(left.value, t.spec.path, t.spec.len).Some?
      && t.value == Pack(hash, Read(left.value, t.spec.path, t.spec.len).value)
  }

  predicate Baselines(hash: Hash, traces: seq<TraceState>, left: Option<Memory>)
  {
    forall i :: 0 <= i < |traces| ==> BaselineOf(hash, traces[i], left)
  }

  lemma {:induction false} BaselineIsKept(hash: Hash, traces: seq<TraceState>, spec: TraceSpec, left: Option<Memory>)
    requires Baselines(hash, traces, left)
    ensures BaselineOf(hash, Baseline(traces, spec), left) && Baseline(traces, spec).spec == spec
  {
    if traces != [] {
      assert BaselineOf(hash, traces[0], left);
      assert forall i :: 0 <= i < |traces[1..]| ==> traces[1..][i] == traces[i + 1];
      BaselineIsKept(hash, traces[1..], spec, left);
    }
  }

  lemma PulledKeepsBaselines(hash: Hash, l: Local, sh: Shared, m: Moment, left: Option<Memory>)
    requires Baselines(hash, l.traces, left) && LocalOk(l)
    ensures Baselines(hash, Pulled(l, sh, m).0.traces, left) && LocalOk(Pulled(l, sh, m).0)
  {
    hide BaselineOf;
    if PullRequest(l, sh, m).1 {
      var specs := Clamp(sh.request).traces;
      forall i | 0 <= i < |specs| ensures BaselineOf(hash, Baseline(l.traces, specs[i]), left) {
        BaselineIsKept(hash, l.traces, specs[i], left);
      }
    }
  }

  /** A baseline that also says whether the watch could be read at all, and as what number. */
  predicate UpToDate(hash: Hash, t: TraceState, m: Memory)
    requires Shaped(m)
  {
    var bytes := Read(m, t.spec.path, t.spec.len);
    && (t.valid <==> bytes.Some?)
    && (t.valid ==> t.value == Pack(hash, bytes.value) && t.decoded == Decode(t.spec.decode, bytes.value))
  }

  predicate AllUpToDate(hash: Hash, traces: seq<TraceState>, m: Memory)
    requires Shaped(m)
  {
    forall i :: 0 <= i < |traces| ==> UpToDate(hash, traces[i], m)
  }

  lemma LookedIsUpToDate(hash: Hash, traces: seq<TraceState>, m: Memory)
    requires Shaped(m)
    ensures AllUpToDate(hash, AllLooked(hash, traces, m), m)
    ensures forall i :: 0 <= i < |traces| ==> AllLooked(hash, traces, m)[i].spec == traces[i].spec
  {
  }

  lemma UpToDateIsBaseline(hash: Hash, traces: seq<TraceState>, m: Memory)
    requires Shaped(m) && AllUpToDate(hash, traces, m)
    ensures Baselines(hash, traces, Some(m))
  {
    forall i | 0 <= i < |traces| ensures BaselineOf(hash, traces[i], Some(m)) {
      assert UpToDate(hash, traces[i], m);
    }
  }

  /** Freezes that wrote nothing, and edits that were all refused, left the console alone. */
  lemma {:induction false} NoRestoreNoChange(freezes: seq<Freeze>, p: Pass, n: nat)
    requires PassOk(freezes, p) && n <= |freezes|
    ensures var q := HoldAll(freezes, p, n);
            && (p.wrote ==> q.wrote) && (!q.wrote ==> q.console == p.console)
  {
    if n > 0 {
      NoRestoreNoChange(freezes, p, n - 1);
    }
  }

  lemma {:induction false} NoEditNoChange(c: Console, edits: seq<Edit>)
    requires Shaped(c.memory)
    ensures var (after, answers) := ApplyEdits(c, edits); AnyWritten(answers) || after == c
  {
    hide EnqueueWrite;
    if edits != [] {
      var init := edits[..|edits| - 1];
      NoEditNoChange(c, init);
      var (before, answers) := ApplyEdits(c, init);
      var answer := ApplyEdit(before, edits[|edits| - 1]).1;
      if AnyWritten(answers) {
        var e :| e in answers && e.Written?;
        assert e in answers + [answer] && e.Written?;
      } else if answer.Written? {
        assert answer in answers + [answer] && answer.Written?;
      }
    }
  }

  /** Memory as the service leaves it, when it looked at it or wrote it. */
  function LeftBy(hash: Hash, l: Local, c: Console, requestChanged: bool, left: Option<Memory>): Option<Memory>
    requires LocalOk(l) && Shaped(c.memory)
  {
    var done := Act(hash, l, c, requestChanged);
    if NewFrame(l, c) || done.wrote then Some(done.console.memory) else left
  }

  lemma UnwrittenIsUnchanged(hash: Hash, l: Local, c: Console, requestChanged: bool)
    requires LocalOk(l) && Shaped(c.memory)
    ensures var done := Act(hash, l, c, requestChanged); !done.wrote ==> done.console == c
  {
    hide Observed, AllLooked, PostAll, HoldAll, ApplyEdits;
    NoRestoreNoChange(l.freezes, Pass(c, l.restores, l.freezeOk, false), |l.freezes|);
    NoEditNoChange(FreezePass(l, c, requestChanged).console, l.pendingEdits);
  }

  lemma ActKeepsBaselines(hash: Hash, l: Local, c: Console, requestChanged: bool, left: Option<Memory>)
    requires LocalOk(l) && Shaped(c.memory) && Baselines(hash, l.traces, left)
    ensures var done := Act(hash, l, c, requestChanged);
            && Baselines(hash, done.local.traces, LeftBy(hash, l, c, requestChanged, left))
            && (NewFrame(l, c) ==> AllUpToDate(hash, done.local.traces, done.console.memory))
            && |done.local.traces| == |l.traces|
            && (forall i :: 0 <= i < |l.traces| ==> done.local.traces[i].spec == l.traces[i].spec)
  {
    hide HoldAll, ApplyEdits, Looked, BaselineOf, UpToDate, Observed, PostAll;
    UnwrittenIsUnchanged(hash, l, c, requestChanged);
    var done := Act(hash, l, c, requestChanged);
    LookedIsUpToDate(hash, l.traces, c.memory);
    var traces1 := if NewFrame(l, c) then AllLooked(hash, l.traces, c.memory) else l.traces;
    LookedIsUpToDate(hash, traces1, done.console.memory);
    if NewFrame(l, c) || done.wrote {
      UpToDateIsBaseline(hash, done.local.traces, done.console.memory);
    }
  }
}
