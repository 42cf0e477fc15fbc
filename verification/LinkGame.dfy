/**
  The linked pair of consoles as an abstract deterministic system, and the one
  sequence of pair steps both machines are meant to execute.

  A console core is foreign code: it appears here as the functions of a `Game`.
  What the cable relies on about it is stated as `Lawful`.
 */
module LinkGame {
  import opened Wrappers

  /** One event of a link frame. `Ignored` stands for every packet kind that has no effect on a
      linked console (`NoOp`, and whatever a link frame may not carry). */
  datatype Event =
    | ChangeInput(data: seq<bv8>)
    | WriteMemory(address: nat, data: seq<bv8>)
    | ResetConsole
    | Ignored

  type Batch = seq<Event>

  /** The pair of consoles. The boolean names the console: true for the first of the pair. */
  datatype Game<!P, !H> = Game(
    asleep: (P, bool) -> bool,
    linkTime: (P, bool) -> nat,
    midFrame: (P, bool) -> bool,
    apply: (P, bool, Event) -> P,
    step: (P, bool) -> Option<(P, nat)>,
    pairHash: P -> H)

  /** What the protocol relies on: events given at a frame boundary move neither a console's link clock,
      nor its sleep, nor its place in a frame; a step completes at most one frame of the console stepped, leaves that
      console at a frame boundary when it does, and leaves the other console's place alone. */
  ghost predicate Lawful<P(!new), H>(g: Game<P, H>)
  {
    && (forall p, who, e, other :: !g.midFrame(p, who) ==>
          var q := g.apply(p, who, e);
          && g.asleep(q, other) == g.asleep(p, other)
          && g.linkTime(q, other) == g.linkTime(p, other)
          && g.midFrame(q, other) == g.midFrame(p, other))
    && (forall p, who :: g.step(p, who).Some? ==>
          var (q, frames) := g.step(p, who).value;
          && frames <= 1
          && (frames == 1 ==> !g.midFrame(q, who))
          && g.midFrame(q, !who) == g.midFrame(p, !who))
  }

  /** A lawful pair with both consoles at a frame boundary: what the cable is plugged into. */
  ghost predicate AtBoundary<P(!new), H>(g: Game<P, H>, pair: P)
  {
    Lawful(g) && !g.midFrame(pair, true) && !g.midFrame(pair, false)
  }

  /** Whose turn it is: the console behind in its own emulated time, ties to the first; a console
      parked by its lockstep coordinator never runs. None when both are parked. */
  function SecondRunsNext<P, H>(g: Game<P, H>, p: P): Option<bool>
  {
    match (g.asleep(p, true), g.asleep(p, false))
    case (true, true) => None
    case (true, false) => Some(true)
    case (false, true) => Some(false)
    case (false, false) => Some(g.linkTime(p, false) < g.linkTime(p, true))
  }

  function ApplyBatch<P, H>(g: Game<P, H>, p: P, who: bool, batch: Batch): P
    decreases |batch|
  {
    if batch == [] then p
    else
      var q := if batch[0].Ignored? then p else g.apply(p, who, batch[0]);
      ApplyBatch(g, q, who, batch[1..])
  }

  /** The events of every frame of both consoles that are known so far. */
  datatype Logs = Logs(first: seq<Batch>, second: seq<Batch>) {
    function Of(who: bool): seq<Batch> { if who then first else second }

    ghost predicate Extends(older: Logs) { older.first <= first && older.second <= second }
  }

  /** A point of the common sequence: the pair, the frame each console is in, and whether that
      frame's events have been applied. */
  datatype Cursor<P> = Cursor(pair: P, frame1: nat, frame2: nat, ready1: bool, ready2: bool) {
    function Frame(who: bool): nat { if who then frame1 else frame2 }
    function Ready(who: bool): bool { if who then ready1 else ready2 }

    function Moved(who: bool, p: P, frame: nat, ready: bool): Cursor<P>
    {
      if who then Cursor(p, frame, frame2, ready, ready2) else Cursor(p, frame1, frame, ready1, ready)
    }
  }

  /** One pair step: which console, the events applied right before it (when it began a frame),
      the frames it completed. */
  datatype StepRecord = StepRecord(who: bool, batch: Option<Batch>, frames: nat)

  /** The next step of the common sequence, or None where it stops: both consoles parked, a core
      failed, or the events of the frame about to begin are not known yet. */
  function Advance<P, H>(g: Game<P, H>, logs: Logs, c: Cursor<P>): Option<(Cursor<P>, StepRecord)>
  {
    match SecondRunsNext(g, c.pair)
    case None => None
    case Some(second) =>
      var who := !second;
      var begins := !g.midFrame(c.pair, who) && !c.Ready(who);
      if begins && c.Frame(who) >= |logs.Of(who)| then None
      else
        var batch := if begins then Some(logs.Of(who)[c.Frame(who)]) else None;
        var p := if begins then ApplyBatch(g, c.pair, who, logs.Of(who)[c.Frame(who)]) else c.pair;
        match g.step(p, who)
        case None => None
        case Some((q, frames)) =>
          var ready := frames == 0 && (begins || c.Ready(who));
          Some((c.Moved(who, q, c.Frame(who) + frames, ready), StepRecord(who, batch, frames)))
  }

  function Start<P>(pair: P): Cursor<P> { Cursor(pair, 0, 0, false, false) }

  /** The first `n` steps of the common sequence and where they lead. */
  function CommonSequence<P, H>(g: Game<P, H>, logs: Logs, pair: P, n: nat): Option<(Cursor<P>, seq<StepRecord>)>
  {
    if n == 0 then Some((Start(pair), []))
    else
      match CommonSequence(g, logs, pair, n - 1)
      case None => None
      case Some((c, steps)) =>
        match Advance(g, logs, c)
        case None => None
        case Some((d, step)) => Some((d, steps + [step]))
  }

  /** The cursor after exactly `steps`, when `steps` is how the common sequence begins. */
  ghost predicate Executes<P, H>(g: Game<P, H>, logs: Logs, pair: P, steps: seq<StepRecord>, c: Cursor<P>)
  {
    CommonSequence(g, logs, pair, |steps|) == Some((c, steps))
  }

  // ---- Events leave the turn alone -------------------------------------------------------------

  lemma {:induction false} ApplyBatchKeepsTurn<P(!new), H>(g: Game<P, H>, p: P, who: bool, batch: Batch)
    requires Lawful(g) && !g.midFrame(p, who)
    ensures SecondRunsNext(g, ApplyBatch(g, p, who, batch)) == SecondRunsNext(g, p)
    ensures forall other :: g.midFrame(ApplyBatch(g, p, who, batch), other) == g.midFrame(p, other)
    decreases |batch|
  {
    if batch != [] {
      var q := if batch[0].Ignored? then p else g.apply(p, who, batch[0]);
      ApplyBatchKeepsTurn(g, q, who, batch[1..]);
    }
  }

  // ---- The common sequence ---------------------------------------------------------------------

  lemma CommonSequenceNext<P, H>(g: Game<P, H>, logs: Logs, pair: P, steps: seq<StepRecord>, c: Cursor<P>)
    requires Executes(g, logs, pair, steps, c) && Advance(g, logs, c).Some?
    ensures var (d, step) := Advance(g, logs, c).value; Executes(g, logs, pair, steps + [step], d)
  {
    var (d, step) := Advance(g, logs, c).value;
    assert |steps + [step]| - 1 == |steps|;
  }

  /** Shorter runs are prefixes of longer ones, and frames only move forward. */
  lemma {:induction false} CommonSequencePrefix<P, H>(g: Game<P, H>, logs: Logs, pair: P, m: nat, n: nat)
    requires m <= n && CommonSequence(g, logs, pair, n).Some?
    ensures CommonSequence(g, logs, pair, m).Some?
    ensures CommonSequence(g, logs, pair, m).value.1 <= CommonSequence(g, logs, pair, n).value.1
    ensures forall who ::
            CommonSequence(g, logs, pair, m).value.0.Frame(who) <= CommonSequence(g, logs, pair, n).value.0.Frame(who)
    decreases n
  {
    if m < n { CommonSequencePrefix(g, logs, pair, m, n - 1); }
  }

  /** Learning more frames does not change what was already executed. */
  lemma {:induction false} CommonSequenceExtends<P, H>(g: Game<P, H>, older: Logs, newer: Logs, pair: P, n: nat)
    requires newer.Extends(older) && CommonSequence(g, older, pair, n).Some?
    ensures CommonSequence(g, newer, pair, n) == CommonSequence(g, older, pair, n)
  {
    if n > 0 {
      CommonSequenceExtends(g, older, newer, pair, n - 1);
      var c := CommonSequence(g, older, pair, n - 1).value.0;
      assert Advance(g, older, c).Some?;
      assert Advance(g, newer, c) == Advance(g, older, c);
    }
  }

  /** A console whose frame has not been prepared sits at a frame boundary. */
  lemma {:induction false} UnpreparedIsAtBoundary<P(!new), H>(g: Game<P, H>, logs: Logs, pair: P, n: nat)
    requires AtBoundary(g, pair)
    requires CommonSequence(g, logs, pair, n).Some?
    ensures var c := CommonSequence(g, logs, pair, n).value.0;
      forall who :: !c.Ready(who) ==> !g.midFrame(c.pair, who)
  {
    if n > 0 {
      UnpreparedIsAtBoundary(g, logs, pair, n - 1);
      var c := CommonSequence(g, logs, pair, n - 1).value.0;
      var who := !SecondRunsNext(g, c.pair).value;
      if !c.Ready(who) {
        ApplyBatchKeepsTurn(g, c.pair, who, logs.Of(who)[c.Frame(who)]);
      }
      var d := CommonSequence(g, logs, pair, n).value.0;
      forall w | !d.Ready(w) ensures !g.midFrame(d.pair, w) {
        if w == who { } else { assert w == !who; }
      }
    }
  }

  /** Both consoles execute prefixes of one sequence, whatever the two runs know about the frames
      they have not begun yet. */
  lemma TwoRunsAgree<P, H>(g: Game<P, H>, logs: Logs, pair: P, steps1: seq<StepRecord>, c1: Cursor<P>,
      steps2: seq<StepRecord>, c2: Cursor<P>)
    requires Executes(g, logs, pair, steps1, c1) && Executes(g, logs, pair, steps2, c2)
    ensures |steps1| <= |steps2| ==> steps1 <= steps2 && c1.frame1 <= c2.frame1 && c1.frame2 <= c2.frame2
    ensures steps1 == steps2 ==> c1 == c2
  {
    if |steps1| <= |steps2| {
      CommonSequencePrefix(g, logs, pair, |steps1|, |steps2|);
      assert c1.Frame(true) <= c2.Frame(true) && c1.Frame(false) <= c2.Frame(false);
    }
  }
}
