/**
  What a hostile or confused peer can make the inbox hold.

  `push` reads how far the pair has got before it takes the lock, so a frame can be checked, the
  pair can move on, and only then is the frame stored. The network reader is one thread: at most
  one such check is in progress.
 */
module LinkInboxBound {
  import opened Wrappers
  import opened LinkMachine

  datatype RacyInbox<H> = RacyInbox(inbox: Inbox<H>, checked: Option<nat>)

  datatype Op<H> =
    | Check(frame: nat)               // push: compare with `applied`, before the lock
    | Store(linkFrame: LinkFrame<H>)  // push: under the lock
    | TakeFrame(frame: nat)           // the core thread
    | EndOfPeer

  function Apply<H>(s: RacyInbox<H>, op: Op<H>): RacyInbox<H>
  {
    match op
    case Check(frame) =>
      if s.checked.Some? || frame < s.inbox.applied || frame > s.inbox.applied + MAX_INBOX_AHEAD_FRAMES then s
      else s.(checked := Some(frame))
    case Store(linkFrame) =>
      if s.checked.None? then s
      else
        var frame := s.checked.value;
        RacyInbox(s.inbox.(frames := s.inbox.frames[frame := linkFrame], newest := if frame > s.inbox.newest then frame
                           else s.inbox.newest), None)
    case TakeFrame(frame) => s.(inbox := Take(s.inbox, frame).0)
    case EndOfPeer => s.(inbox := s.inbox.(ended := true))
  }

  function ApplyAll<H>(s: RacyInbox<H>, ops: seq<Op<H>>): RacyInbox<H>
    decreases |ops|
  {
    if ops == [] then s else Apply(ApplyAll(s, ops[..|ops| - 1]), ops[|ops| - 1])
  }

  /** At most one stored frame is behind the pair, and none is too far ahead of it. */
  ghost predicate Bounded<H>(s: RacyInbox<H>)
  {
    && (forall f :: f in s.inbox.frames ==> f <= s.inbox.applied + MAX_INBOX_AHEAD_FRAMES)
    && (forall f, h :: f in s.inbox.frames && h in s.inbox.frames && f < s.inbox.applied && h < s.inbox.applied ==>
        f == h)
    && (s.checked.Some? ==> s.checked.value <= s.inbox.applied + MAX_INBOX_AHEAD_FRAMES)
    && (s.checked.Some? && s.checked.value < s.inbox.applied ==> forall f :: f in s.inbox.frames ==>
        f >= s.inbox.applied)
  }

  /** Taking never moves backwards: the core thread asks for the frame it is at. */
  ghost predicate InStep<H>(s: RacyInbox<H>, op: Op<H>) { op.TakeFrame? ==> op.frame >= s.inbox.applied }

  lemma ApplyKeepsBounded<H>(s: RacyInbox<H>, op: Op<H>)
    requires Bounded(s) && InStep(s, op)
    ensures Bounded(Apply(s, op))
  {
  }

  ghost predicate AllInStep<H>(s: RacyInbox<H>, ops: seq<Op<H>>)
  {
    forall i :: 0 <= i < |ops| ==> InStep(ApplyAll(s, ops[..i]), ops[i])
  }

  lemma {:induction false} SubsetSize(small: set<nat>, large: set<nat>)
    requires small <= large
    ensures |small| <= |large|
  {
    if small != {} {
      var x :| x in small;
      SubsetSize(small - {x}, large - {x});
    }
  }

  /** The `count` frames from `from` on. */
  ghost function Range(from: nat, count: nat): (frames: set<nat>)
    ensures |frames| == count
    ensures forall f :: f in frames <==> from <= f < from + count
  {
    if count == 0 then {} else Range(from, count - 1) + {from + count - 1}
  }

  /** Whatever is pushed: the inbox holds no frame more than 600 ahead of the pair, at most one that
      the pair has passed, and so at most 602 in all. */
  lemma {:induction false} HostilePeerIsBounded<H>(ops: seq<Op<H>>)
    requires AllInStep(Empty(), ops)
    ensures var s := ApplyAll(Empty(), ops);
      Bounded(s) && |s.inbox.frames| <= MAX_INBOX_AHEAD_FRAMES + 2
    decreases |ops|
  {
    var start: RacyInbox<H> := Empty();
    var s := ApplyAll(start, ops);
    if ops != [] {
      var shorter := ops[..|ops| - 1];
      forall i | 0 <= i < |shorter| ensures InStep(ApplyAll(start, shorter[..i]), shorter[i]) { assert shorter[..i]
              == ops[..i]; }
      HostilePeerIsBounded(shorter);
      assert InStep(ApplyAll(start, ops[..|ops| - 1]), ops[|ops| - 1]);
      ApplyKeepsBounded(ApplyAll(start, shorter), ops[|ops| - 1]);
    }
    BoundedSize(s);
  }

  lemma BoundedSize<H>(s: RacyInbox<H>)
    requires Bounded(s)
    ensures |s.inbox.frames| <= MAX_INBOX_AHEAD_FRAMES + 2
  {
    var applied := s.inbox.applied;
    var window := Range(applied, MAX_INBOX_AHEAD_FRAMES + 1);
    if stale :| stale in s.inbox.frames && stale < applied {
      SubsetSize(s.inbox.frames.Keys, window + {stale});
    } else {
      SubsetSize(s.inbox.frames.Keys, window);
    }
    assert |s.inbox.frames| == |s.inbox.frames.Keys|;
  }

  // ---- The bound is reached --------------------------------------------------------------------

  function Empty<H>(): RacyInbox<H> { RacyInbox(Inbox(map[], 0, 0, false), None) }

  /** Frame 0 is stored; checked again; taken; stored again, behind the pair; and then the `n` frames
      from 1 on. */
  function Flood<H>(linkFrame: LinkFrame<H>, n: nat): seq<Op<H>>
  {
    if n == 0 then [Check(0), Store(linkFrame), Check(0), TakeFrame(0), Store(linkFrame)]
    else Flood(linkFrame, n - 1) + [Check(n), Store(linkFrame)]
  }

  lemma ApplyOneMore<H>(s: RacyInbox<H>, ops: seq<Op<H>>, op: Op<H>)
    ensures ApplyAll(s, ops + [op]) == Apply(ApplyAll(s, ops), op)
    ensures AllInStep(s, ops) && InStep(ApplyAll(s, ops), op) ==> AllInStep(s, ops + [op])
  {
    var longer := ops + [op];
    assert longer[..|ops|] == ops;
    forall i | 0 <= i < |ops| ensures longer[..i] == ops[..i] {
    }
  }

  lemma {:induction false} FloodFills<H>(linkFrame: LinkFrame<H>, n: nat)
    requires n <= MAX_INBOX_AHEAD_FRAMES + 1
    ensures var s := ApplyAll(Empty<H>(), Flood(linkFrame, n));
      && AllInStep(Empty<H>(), Flood(linkFrame, n)) && s.inbox.applied == 1 && s.checked.None?
      && s.inbox.frames.Keys == Range(0, n + 1)
  {
    hide AllInStep, ApplyAll, Apply, Range;
    if n == 0 {
      FloodBegins(linkFrame);
    } else {
      FloodFills(linkFrame, n - 1);
      ApplyTwoMore(Empty<H>(), Flood(linkFrame, n - 1), Check(n), Store(linkFrame));
      StoresOneMore(ApplyAll(Empty<H>(), Flood(linkFrame, n - 1)), linkFrame, n);
    }
  }

  lemma StoresOneMore<H>(s: RacyInbox<H>, linkFrame: LinkFrame<H>, n: nat)
    requires 1 <= n <= MAX_INBOX_AHEAD_FRAMES + 1 && s.inbox.applied == 1 && s.checked.None?
             && s.inbox.frames.Keys == Range(0, n)
    ensures var t := Apply(Apply(s, Check(n)), Store(linkFrame));
      t.inbox.applied == 1 && t.checked.None? && t.inbox.frames.Keys == Range(0, n + 1)
  {
    assert Apply(Apply(s, Check(n)), Store(linkFrame)).inbox.frames.Keys == Range(0, n) + {n};
  }

  lemma ApplyTwoMore<H>(s: RacyInbox<H>, ops: seq<Op<H>>, op: Op<H>, next: Op<H>)
    ensures ApplyAll(s, ops + [op, next]) == Apply(Apply(ApplyAll(s, ops), op), next)
    ensures AllInStep(s, ops) && InStep(ApplyAll(s, ops), op) && InStep(Apply(ApplyAll(s, ops), op), next) ==>
            AllInStep(s, ops + [op, next])
  {
    hide AllInStep, ApplyAll, Apply;
    ApplyOneMore(s, ops, op);
    ApplyOneMore(s, ops + [op], next);
    assert ops + [op, next] == ops + [op] + [next];
  }

  lemma FloodBegins<H>(linkFrame: LinkFrame<H>)
    ensures var s := ApplyAll(Empty<H>(), Flood(linkFrame, 0));
      && AllInStep(Empty<H>(), Flood(linkFrame, 0)) && s.inbox.applied == 1 && s.checked.None?
      && s.inbox.frames.Keys == Range(0, 1)
  {
    hide AllInStep, ApplyAll;
    var none: seq<Op<H>> := [];
    NothingApplied(Empty<H>());
    ApplyTwoMore(Empty<H>(), none, Check(0), Store(linkFrame));
    ApplyTwoMore(Empty<H>(), none + [Check(0), Store(linkFrame)], Check(0), TakeFrame(0));
    var four := none + [Check(0), Store(linkFrame)] + [Check(0), TakeFrame(0)];
    ApplyOneMore(Empty<H>(), four, Store(linkFrame));
    assert Flood(linkFrame, 0) == four + [Store(linkFrame)];
    var s := ApplyAll(Empty<H>(), four);
    assert s.inbox.frames == map[] && s.inbox.applied == 1 && s.checked == Some(0);
    assert Apply(s, Store(linkFrame)).inbox.frames.Keys == {0};
  }

  lemma NothingApplied<H>(s: RacyInbox<H>)
    ensures ApplyAll(s, []) == s && AllInStep(s, [])
  {
  }

  /** 602 frames can be there, one of them behind the pair. */
  lemma BoundIsReached<H>(linkFrame: LinkFrame<H>)
    ensures var ops := Flood(linkFrame, MAX_INBOX_AHEAD_FRAMES + 1);
      var inbox := ApplyAll(Empty<H>(), ops).inbox;
      && AllInStep(Empty<H>(), ops)
      && |inbox.frames| == MAX_INBOX_AHEAD_FRAMES + 2 && 0 in inbox.frames && inbox.applied == 1
  {
    FloodFills(linkFrame, MAX_INBOX_AHEAD_FRAMES + 1);
    var frames := ApplyAll(Empty<H>(), Flood(linkFrame, MAX_INBOX_AHEAD_FRAMES + 1)).inbox.frames;
    assert |frames| == |frames.Keys|;
    assert 0 in frames.Keys;
  }

  // ---- When a frame behind the pair is stored --------------------------------------------------

  /** Every stored frame is in [applied, applied + 600]. */
  ghost predicate Tight<H>(inbox: Inbox<H>)
  {
    forall f :: f in inbox.frames ==> inbox.applied <= f <= inbox.applied + MAX_INBOX_AHEAD_FRAMES
  }

  /** A frame is stored that the pair has passed since it was checked. */
  ghost predicate StoresLate<H>(s: RacyInbox<H>, op: Op<H>)
  {
    op.Store? && s.checked.Some? && s.checked.value < s.inbox.applied
  }

  lemma TightUnlessLate<H>(s: RacyInbox<H>, op: Op<H>)
    requires Bounded(s) && InStep(s, op) && Tight(s.inbox)
    ensures Tight(Apply(s, op).inbox) <==> !StoresLate(s, op)
  {
    if StoresLate(s, op) {
      assert s.checked.value in Apply(s, op).inbox.frames;
    }
  }

  /** One operation further along a run. */
  lemma PrefixGrows<H>(ops: seq<Op<H>>, i: nat)
    requires AllInStep(Empty<H>(), ops) && i < |ops|
    ensures ApplyAll(Empty<H>(), ops[..i + 1]) == Apply(ApplyAll(Empty<H>(), ops[..i]), ops[i])
    ensures Bounded(ApplyAll(Empty<H>(), ops[..i])) && InStep(ApplyAll(Empty<H>(), ops[..i]), ops[i])
  {
    hide Apply, Bounded, InStep;
    assert ops[..i + 1][..i] == ops[..i];
    forall k | 0 <= k < i ensures InStep(ApplyAll(Empty<H>(), ops[..i][..k]), ops[..i][k]) {
      assert ops[..i][..k] == ops[..k];
    }
    HostilePeerIsBounded(ops[..i]);
  }

  lemma {:induction false} TightUpTo<H>(ops: seq<Op<H>>, n: nat)
    requires AllInStep(Empty<H>(), ops) && n <= |ops|
    requires forall i :: 0 <= i < n ==> !StoresLate(ApplyAll(Empty<H>(), ops[..i]), ops[i])
    ensures Tight(ApplyAll(Empty<H>(), ops[..n]).inbox)
  {
    if n > 0 {
      TightUpTo(ops, n - 1);
      PrefixGrows(ops, n - 1);
      TightUnlessLate(ApplyAll(Empty<H>(), ops[..n - 1]), ops[n - 1]);
    }
  }

  /** The stored frames stay in [applied, applied + 600] all along exactly when none is stored that the
      pair has passed between check and store. */
  lemma TightExactlyWithoutLateStores<H>(ops: seq<Op<H>>)
    requires AllInStep(Empty<H>(), ops)
    ensures (forall i :: 0 <= i <= |ops| ==> Tight(ApplyAll(Empty<H>(), ops[..i]).inbox))
            <==> (forall i :: 0 <= i < |ops| ==> !StoresLate(ApplyAll(Empty<H>(), ops[..i]), ops[i]))
  {
    hide Tight, StoresLate, Apply, Bounded, InStep, AllInStep;
    if forall i :: 0 <= i < |ops| ==> !StoresLate(ApplyAll(Empty<H>(), ops[..i]), ops[i]) {
      forall i | 0 <= i <= |ops| ensures Tight(ApplyAll(Empty<H>(), ops[..i]).inbox) {
        TightUpTo(ops, i);
      }
    }
    if forall i :: 0 <= i <= |ops| ==> Tight(ApplyAll(Empty<H>(), ops[..i]).inbox) {
      forall i | 0 <= i < |ops| ensures !StoresLate(ApplyAll(Empty<H>(), ops[..i]), ops[i]) {
        PrefixGrows(ops, i);
        assert Tight(ApplyAll(Empty<H>(), ops[..i]).inbox) && Tight(ApplyAll(Empty<H>(), ops[..i + 1]).inbox);
        TightUnlessLate(ApplyAll(Empty<H>(), ops[..i]), ops[i]);
      }
    }
  }

  // ---- Pushes taken one at a time --------------------------------------------------------------

  /** A push with nothing between check and store, a take, or the end. */
  datatype WholeOp<H> = Pushed(frame: nat, linkFrame: LinkFrame<H>) | Taken(frame: nat) | Ended

  function ApplyWhole<H>(inbox: Inbox<H>, op: WholeOp<H>): Inbox<H>
  {
    match op
    case Pushed(frame, linkFrame) => Push(inbox, frame, linkFrame)
    case Taken(frame) => Take(inbox, frame).0
    case Ended => inbox.(ended := true)
  }

  function ApplyAllWhole<H>(inbox: Inbox<H>, ops: seq<WholeOp<H>>): Inbox<H>
    decreases |ops|
  {
    if ops == [] then inbox else ApplyWhole(ApplyAllWhole(inbox, ops[..|ops| - 1]), ops[|ops| - 1])
  }

  /** The steps it is made of. */
  function Steps<H>(op: WholeOp<H>): seq<Op<H>>
  {
    match op
    case Pushed(frame, linkFrame) => [Check(frame), Store(linkFrame)]
    case Taken(frame) => [TakeFrame(frame)]
    case Ended => [EndOfPeer]
  }

  /** ... and with nothing in between they are what the locked operation is. */
  lemma WholeIsItsSteps<H>(s: RacyInbox<H>, op: WholeOp<H>)
    requires s.checked.None?
    ensures ApplyAll(s, Steps(op)) == RacyInbox(ApplyWhole(s.inbox, op), None)
  {
    hide ApplyAll, Take;
    NothingApplied(s);
    if op.Pushed? {
      ApplyTwoMore(s, [], Check(op.frame), Store(op.linkFrame));
      assert [] + Steps(op) == Steps(op);
    } else {
      ApplyOneMore(s, [], Steps(op)[0]);
      assert [] + Steps(op) == Steps(op);
    }
  }

  /** In every run of uninterrupted pushes and takes, whatever is pushed, every stored frame is in
      [applied, applied + 600], and there are at most 601. */
  lemma {:induction false} UninterruptedPushesAreTight<H>(ops: seq<WholeOp<H>>)
    ensures var inbox := ApplyAllWhole(Empty<H>().inbox, ops);
      Tight(inbox) && |inbox.frames| <= MAX_INBOX_AHEAD_FRAMES + 1
    decreases |ops|
  {
    if ops != [] {
      UninterruptedPushesAreTight(ops[..|ops| - 1]);
    }
    TightSize(ApplyAllWhole(Empty<H>().inbox, ops));
  }

  lemma TightSize<H>(inbox: Inbox<H>)
    requires Tight(inbox)
    ensures |inbox.frames| <= MAX_INBOX_AHEAD_FRAMES + 1
  {
    SubsetSize(inbox.frames.Keys, Range(inbox.applied, MAX_INBOX_AHEAD_FRAMES + 1));
    assert |inbox.frames| == |inbox.frames.Keys|;
  }
}
