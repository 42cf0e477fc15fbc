/**
  Following, frame by frame, whether the 3D picture on screen lacks geometry because a state was
  loaded without its polygons.

  The tracker only sees numbers the console keeps anyway. Beside it runs the console's 3D engine
  with every polygon tagged by whether it was there before the load; the theorems tie the two.
 */
module DiscardedGeometry {
  import opened Words

  /** A polygon, by whether it came with the state. */
  datatype Polygon = Restored | Drawn

  /** The list being rendered, the polygons submitted for the next flush, the list the 3D picture was
      rendered from, and the bank that flips at every flush. */
  datatype Gpu = Gpu(render: seq<Polygon>, submitted: seq<Polygon>, picture: seq<Polygon>, bank: nat)

  /** What a frame does: polygons submitted before VBlank, flushes there, with rendering on or off,
      polygons submitted after it; and at its end, rendering on or off and the display control register. */
  datatype Frame = Frame(before: nat, flushes: nat, renderingAtFlush: bool, after: nat, renderingAtEnd: bool,
      dispcnt: u32)

  function Drawns(n: nat): seq<Polygon> { seq(n, _ => Drawn) }
  function Restoreds(n: nat): seq<Polygon> { seq(n, _ => Restored) }

  /** A flush swaps banks; with rendering on, what was submitted is now rendered. */
  function Flush(g: Gpu, renderingEnabled: bool): Gpu
  {
    Gpu(if renderingEnabled then g.submitted else g.render, [], g.picture, 1 - g.bank % 2)
  }

  function Flushes(g: Gpu, n: nat, renderingEnabled: bool): Gpu
  {
    if n == 0 then g else Flush(Flushes(g, n - 1, renderingEnabled), renderingEnabled)
  }

  /** A frame: submit, flush at VBlank, render for the frame to come, go on submitting. */
  function RunFrame(g: Gpu, f: Frame): Gpu
  {
    var flushed := Flushes(g.(submitted := g.submitted + Drawns(f.before)), f.flushes, f.renderingAtFlush);
    flushed.(picture := flushed.render, submitted := flushed.submitted + Drawns(f.after))
  }

  /** Background 0 is on, and is the 3D picture. */
  predicate Shows3d(dispcnt: u32) { dispcnt / 0x8 % 2 == 1 && dispcnt / 0x100 % 2 == 1 }

  predicate Holds(list: seq<Polygon>) { Restored in list }

  // ---- The tracker -----------------------------------------------------------------------------

  datatype Tracker = Tracker(renderList: bool, pending: bool, rendered: bool, shown: bool, bank: nat)

  const IDLE := Tracker(false, false, false, false, 0)

  predicate Active(d: Tracker) { d.renderList || d.pending || d.rendered }

  /** A state with that many polygons being rendered and submitted is loaded, its geometry discarded. */
  function Loaded(rendering: nat, submitted: nat, bank: nat): Tracker
  {
    Tracker(rendering > 0, submitted > 0, rendering > 0, false, bank)
  }

  /** Past the frame just run: what the console says at its end. */
  function Tracked(d: Tracker, bank: nat, renderingEnabled: bool, dispcnt: u32): Tracker
  {
    if !Active(d) then d.(shown := false)
    else
      var shown := d.rendered && Shows3d(dispcnt);
      if bank != d.bank then
        var renderList := if renderingEnabled then d.pending else d.renderList;
        Tracker(renderList, false, renderList, shown, bank)
      else d.(rendered := d.renderList, shown := shown)
  }

  /** The engine right after such a load: the load itself renders the list. */
  function GpuLoaded(rendering: nat, submitted: nat, bank: nat): Gpu
  {
    Gpu(Restoreds(rendering), Restoreds(submitted), Restoreds(rendering), bank)
  }

  datatype Both = Both(gpu: Gpu, tracker: Tracker)

  function Step(s: Both, f: Frame): Both
  {
    var g := RunFrame(s.gpu, f);
    Both(g, Tracked(s.tracker, g.bank, f.renderingAtEnd, f.dispcnt))
  }

  function Run(s: Both, frames: seq<Frame>): Both
  {
    if frames == [] then s else Step(Run(s, frames[..|frames| - 1]), frames[|frames| - 1])
  }

  function Start(rendering: nat, submitted: nat, bank: nat): Both
  {
    Both(GpuLoaded(rendering, submitted, bank), Loaded(rendering, submitted, bank))
  }

  /** The console flushes at most once a frame, and rendering is not switched between that and the frame's end. */
  predicate OneFlushAtMost(frames: seq<Frame>)
  {
    forall i :: 0 <= i < |frames| ==>
      frames[i].flushes <= 1 && (frames[i].flushes == 1 ==> frames[i].renderingAtFlush == frames[i].renderingAtEnd)
  }

  /** The flags are what the tags say; once inactive the bank no longer matters. */
  predicate Agrees(s: Both)
  {
    && s.gpu.bank < 2
    && (s.tracker.renderList <==> Holds(s.gpu.render))
    && (s.tracker.pending <==> Holds(s.gpu.submitted))
    && (s.tracker.rendered <==> Holds(s.gpu.picture))
    && (Active(s.tracker) ==> s.tracker.bank == s.gpu.bank)
  }

  lemma DrawnHoldsNothing(list: seq<Polygon>, n: nat)
    ensures Holds(list + Drawns(n)) <==> Holds(list)
    ensures !Holds(Drawns(n)) && (Holds(Restoreds(n)) <==> n > 0)
  {
    if n > 0 {
      assert Restoreds(n)[0] == Restored;
    }
    if Holds(list) {
      var k :| 0 <= k < |list| && list[k] == Restored;
      assert (list + Drawns(n))[k] == Restored;
    }
  }

  /** Flushes the tracker can follow: it sees an odd number of them as one, by whether rendering is on at
      the end of the frame, and an even number as none. One goes well when rendering was not switched
      since, or when it makes no difference whether the list or what was submitted is rendered; more,
      when nothing discarded was there for them to lose. */
  predicate Harmless(d: Tracker, f: Frame)
  {
    if !Active(d) || f.flushes == 0 then true
    else if f.flushes % 2 == 0 then !d.pending && !(f.renderingAtFlush && d.renderList)
    else if !f.renderingAtFlush then !f.renderingAtEnd || d.renderList == d.pending
    else (if f.renderingAtEnd then d.pending else d.renderList) == (f.flushes == 1 && d.pending)
  }

  /** Any number of flushes: the last of them decides, and those after the first find nothing submitted. */
  lemma {:induction false} ManyFlushes(g: Gpu, n: nat, renderingEnabled: bool)
    requires g.bank < 2
    ensures var h := Flushes(g, n, renderingEnabled);
      && h.picture == g.picture && h.bank == (if n % 2 == 0 then g.bank else 1 - g.bank)
      && h.submitted == (if n == 0 then g.submitted else [])
      && h.render == (if n == 0 || !renderingEnabled then g.render else if n == 1 then g.submitted else [])
  {
    if n > 0 {
      ManyFlushes(g, n - 1, renderingEnabled);
    }
  }

  /** Where flags and tags agree, what is shown is told rightly, and they go on agreeing exactly when the
      frame's flushes are harmless. */
  lemma StepAgrees(s: Both, f: Frame)
    requires Agrees(s)
    ensures Agrees(Step(s, f)) <==> Harmless(s.tracker, f)
    ensures Step(s, f).tracker.shown <==> Shows3d(f.dispcnt) && Holds(s.gpu.picture)
  {
    hide Flushes, Drawns;
    DrawnHoldsNothing(s.gpu.submitted, f.before);
    DrawnHoldsNothing(s.gpu.submitted + Drawns(f.before), f.after);
    DrawnHoldsNothing([], f.after);
    assert [] + Drawns(f.after) == Drawns(f.after) && !Holds([]);
    ManyFlushes(s.gpu.(submitted := s.gpu.submitted + Drawns(f.before)), f.flushes, f.renderingAtFlush);
  }

  predicate AllHarmless(s: Both, frames: seq<Frame>)
  {
    forall i :: 0 <= i < |frames| ==> Harmless(Run(s, frames[..i]).tracker, frames[i])
  }

  lemma OneFlushIsHarmless(s: Both, frames: seq<Frame>)
    requires OneFlushAtMost(frames)
    ensures AllHarmless(s, frames)
  {
  }

  lemma StartAgrees(rendering: nat, submitted: nat, bank: nat)
    requires bank < 2
    ensures Agrees(Start(rendering, submitted, bank))
  {
    DrawnHoldsNothing([], rendering);
    DrawnHoldsNothing([], submitted);
  }

  lemma {:induction false} RunAgrees(s: Both, frames: seq<Frame>)
    requires Agrees(s) && AllHarmless(s, frames)
    ensures Agrees(Run(s, frames))
    decreases |frames|
  {
    hide Agrees, Harmless, Step;
    if frames != [] {
      var init, f := frames[..|frames| - 1], frames[|frames| - 1];
      forall i | 0 <= i < |init| ensures Harmless(Run(s, init[..i]).tracker, init[i]) {
        assert init[..i] == frames[..i];
      }
      assert Harmless(Run(s, frames[..|init|]).tracker, frames[|init|]);
      RunAgrees(s, init);
      StepAgrees(Run(s, init), f);
    }
  }

  /** After a load, flags and tags agree all along exactly as long as every frame's flushes are harmless. */
  lemma AgreesExactly(rendering: nat, submitted: nat, bank: nat, frames: seq<Frame>)
    requires bank < 2
    ensures var s := Start(rendering, submitted, bank);
      (forall i :: 0 <= i <= |frames| ==> Agrees(Run(s, frames[..i]))) <==> AllHarmless(s, frames)
  {
    hide Agrees, Harmless, Step;
    var s := Start(rendering, submitted, bank);
    StartAgrees(rendering, submitted, bank);
    if AllHarmless(s, frames) {
      forall i | 0 <= i <= |frames| ensures Agrees(Run(s, frames[..i])) {
        forall k | 0 <= k < i ensures Harmless(Run(s, frames[..i][..k]).tracker, frames[..i][k]) {
          assert frames[..i][..k] == frames[..k];
        }
        RunAgrees(s, frames[..i]);
      }
    }
    if forall i :: 0 <= i <= |frames| ==> Agrees(Run(s, frames[..i])) {
      forall i | 0 <= i < |frames| ensures Harmless(Run(s, frames[..i]).tracker, frames[i]) {
        assert frames[..i + 1][..i] == frames[..i];
        assert Agrees(Run(s, frames[..i])) && Agrees(Run(s, frames[..i + 1]));
        StepAgrees(Run(s, frames[..i]), frames[i]);
      }
    }
  }

  /** A frame, of whatever flushes, after frames with harmless ones, as those with one at most are: it is
      said to show a picture without its geometry exactly when it shows the 3D picture and that was
      rendered from a list with a polygon from before the load in it. */
  lemma ShownIsExact(rendering: nat, submitted: nat, bank: nat, frames: seq<Frame>, f: Frame)
    requires AllHarmless(Start(rendering, submitted, bank), frames) && bank < 2
    ensures var s := Run(Start(rendering, submitted, bank), frames);
            Step(s, f).tracker.shown <==> Shows3d(f.dispcnt) && Holds(s.gpu.picture)
  {
    hide Agrees;
    StartAgrees(rendering, submitted, bank);
    RunAgrees(Start(rendering, submitted, bank), frames);
    StepAgrees(Run(Start(rendering, submitted, bank), frames), f);
  }

  // ---- When it is over -------------------------------------------------------------------------

  /** How many flushes there were, and which of them, counting from one, was the last with rendering on. */
  function FlushCount(frames: seq<Frame>): nat
  {
    if frames == [] then 0 else FlushCount(frames[..|frames| - 1]) + frames[|frames| - 1].flushes
  }

  function LastRendering(frames: seq<Frame>): nat
  {
    if frames == [] then 0
    else if frames[|frames| - 1].flushes > 0 && frames[|frames| - 1].renderingAtFlush then FlushCount(frames)
    else LastRendering(frames[..|frames| - 1])
  }

  /** Only the list being rendered at the load, and what the first flush made of the polygons submitted
      at the load, ever hold discarded polygons. */
  lemma {:induction false} WhatIsLeft(rendering: nat, submitted: nat, bank: nat, frames: seq<Frame>)
    requires OneFlushAtMost(frames) && bank < 2
    ensures var d := Run(Start(rendering, submitted, bank), frames).tracker;
            && (d.pending <==> submitted > 0 && FlushCount(frames) == 0)
            && (d.renderList <==>
                (rendering > 0 && LastRendering(frames) == 0) || (submitted > 0 && LastRendering(frames) == 1))
            && (d.rendered <==> d.renderList)
            && LastRendering(frames) <= FlushCount(frames)
    decreases |frames|
  {
    if frames != [] {
      var init, f := frames[..|frames| - 1], frames[|frames| - 1];
      WhatIsLeft(rendering, submitted, bank, init);
      StartAgrees(rendering, submitted, bank);
      OneFlushIsHarmless(Start(rendering, submitted, bank), init);
      RunAgrees(Start(rendering, submitted, bank), init);
      BankTurns(Run(Start(rendering, submitted, bank), init).gpu, f);
    }
  }

  lemma BankTurns(g: Gpu, f: Frame)
    requires f.flushes <= 1 && g.bank < 2
    ensures RunFrame(g, f).bank == (if f.flushes == 1 then 1 - g.bank else g.bank)
  {
    ManyFlushes(g.(submitted := g.submitted + Drawns(f.before)), f.flushes, f.renderingAtFlush);
  }

  lemma {:induction false} Later(frames: seq<Frame>, more: seq<Frame>)
    ensures FlushCount(frames + more) >= FlushCount(frames)
    ensures LastRendering(frames + more) >= LastRendering(frames) || LastRendering(frames + more) >= FlushCount(frames)
    ensures LastRendering(frames) <= FlushCount(frames)
    decreases |frames| + |more|
  {
    if more == [] {
      assert frames + more == frames;
      if frames != [] {
        Later(frames[..|frames| - 1], []);
        assert frames[..|frames| - 1] + [] == frames[..|frames| - 1];
      }
    } else {
      assert (frames + more)[..|frames + more| - 1] == frames + more[..|more| - 1];
      Later(frames, more[..|more| - 1]);
    }
  }

  /** By the end of the first flush with rendering on that is not the first flush after the load, the
      tracker is done, and it stays so whatever follows. */
  lemma DoneForGood(rendering: nat, submitted: nat, bank: nat, frames: seq<Frame>, f: Frame, more: seq<Frame>)
    requires OneFlushAtMost(frames + [f] + more) && bank < 2
    requires FlushCount(frames) >= 1 && f.flushes == 1 && f.renderingAtFlush
    ensures !Active(Run(Start(rendering, submitted, bank), frames + [f] + more).tracker)
  {
    var upto := frames + [f];
    assert upto[..|upto| - 1] == frames;
    assert LastRendering(upto) == FlushCount(upto) >= 2;
    Later(upto, more);
    WhatIsLeft(rendering, submitted, bank, upto + more);
  }

  /** On a console that flushed twice in a frame the bank would be back where it was, and the tracker
      would go on saying the list holds discarded polygons when it no longer does. */
  lemma TwoFlushesWouldGoUnseen()
    ensures var f := Frame(1, 2, true, 0, true, 0x108);
            var s := Step(Start(1, 0, 0), f);
            s.tracker.renderList && !Holds(s.gpu.render) && Step(s, f).tracker.shown && !Holds(s.gpu.picture)
  {
    var f := Frame(1, 2, true, 0, true, 0x108);
    var g := GpuLoaded(1, 0, 0);
    ManyFlushes(g.(submitted := g.submitted + Drawns(1)), 2, true);
    var h := RunFrame(g, f);
    ManyFlushes(h.(submitted := h.submitted + Drawns(1)), 2, true);
  }

  /** A game that switches rendering off between its flush and the end of the frame is misread: the list it
      now renders is its own, and the tracker goes on saying it is not. */
  lemma SwitchedRenderingIsMisread()
    ensures var f := Frame(1, 1, true, 0, false, 0x108);
            var s := Step(Start(1, 0, 0), f);
            s.tracker.renderList && !Holds(s.gpu.render) && Step(s, f).tracker.shown && !Holds(s.gpu.picture)
  {
    hide Flushes, Holds, Drawns, Restoreds;
    var g := GpuLoaded(1, 0, 0);
    ManyFlushes(g.(submitted := g.submitted + Drawns(1)), 1, true);
    NoneSubmitted();
    assert Shows3d(0x108);
  }

  lemma NoneSubmitted()
    ensures !Holds(Restoreds(0) + Drawns(1))
  {
    DrawnHoldsNothing(Restoreds(0), 1);
    DrawnHoldsNothing([], 0);
  }

  // ---- As an object ----------------------------------------------------------------------------

  class GeometryTracker {
    var renderList: bool
    var pending: bool
    var rendered: bool
    var shown: bool
    var bank: nat

    function Value(): Tracker
      reads this
    {
      Tracker(renderList, pending, rendered, shown, bank)
    }

    constructor ()
      ensures Value() == IDLE
    {
      renderList, pending, rendered, shown, bank := false, false, false, false, 0;
    }

    /** A reset, or any other load. */
    method Clear()
      modifies this
      ensures Value() == IDLE
    {
      renderList, pending, rendered, shown, bank := false, false, false, false, 0;
    }

    method LoadDiscarding(loaded: bool, renderNumPolygons: nat, numPolygons: nat, curRamBank: nat)
      modifies this
      ensures Value() == if loaded then Loaded(renderNumPolygons, numPolygons, curRamBank) else IDLE
    {
      Clear();
      if loaded {
        renderList := renderNumPolygons > 0;
        pending := numPolygons > 0;
        rendered := renderList;
        bank := curRamBank;
      }
    }

    method Track(curRamBank: nat, renderingEnabled: bool, dispcnt: u32)
      modifies this
      ensures Value() == Tracked(old(Value()), curRamBank, renderingEnabled, dispcnt)
    {
      if !(renderList || pending || rendered) {
        shown := false;
        return;
      }
      shown := rendered && Shows3d(dispcnt);
      if curRamBank != bank {
        bank := curRamBank;
        if renderingEnabled {
          renderList := pending;
        }
        pending := false;
      }
      rendered := renderList;
    }
  }
}
