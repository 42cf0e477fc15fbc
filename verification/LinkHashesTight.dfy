/**
  The bound of `LinkHashes` cannot be any larger, however the leads are shared out: for every two leads
  that sum to 59 a pair within them in which a pair hash is overwritten unsent.

  The second console of the pair first gets `b` frames ahead, and then the two take turns frame by frame,
  but for the second's frame `b` + 60, which lasts as long as 59 of the first's; afterwards it catches
  up at once. The consoles ignore their events.
 */
module LinkHashesTight {
  import opened Wrappers
  import opened LinkGame
  import opened LinkMachine
  import opened LinkRun
  import opened LinkTheorems
  import opened LinkProgress
  import opened LinkHashes

  /** Frames completed by each console, and whether it is in the middle of the next one. */
  datatype Pace = Pace(f1: nat, f2: nat, mid1: bool, mid2: bool)

  /** How far ahead the second stays once it has caught up. */
  function Settling(b: nat): nat { if b == 0 then 0 else 1 }

  function Time(b: nat, p: Pace, who: bool): nat
  {
    if who then 2 * p.f1 + 1 + (if p.mid1 then 1 else 0)
    else if p.mid2 then 238
    else if p.f2 < b then 0
    else if p.f2 < b + 60 then 2 * (p.f2 - b) + 1
    else if p.f2 == b + 60 then 120
    else if p.f2 < 120 + Settling(b) then 241
    else if p.f2 == 120 + Settling(b) then 242
    else 2 * (p.f2 - Settling(b)) + 1
  }

  /** The first stops once in its frame 120, the second in its frame `b` + 60. */
  function Turn(b: nat, p: Pace, who: bool): (Pace, nat)
  {
    if who then
      (if p.f1 == 120 && !p.mid1 then (p.(mid1 := true), 0) else (p.(f1 := p.f1 + 1, mid1 := false), 1))
    else if p.f2 == b + 60 && !p.mid2 then (p.(mid2 := true), 0)
    else (p.(f2 := p.f2 + 1, mid2 := false), 1)
  }

  function Hiccup(b: nat): Game<Pace, nat>
  {
    Game((_, _) => false, (p, who) => Time(b, p, who), (p: Pace, who) => if who then p.mid1 else p.mid2, (p, _, _) => p,
         (p, who) => Some(Turn(b, p, who)), (p: Pace) => p.f1)
  }

  const OUTSET := Pace(0, 0, false, false)

  /** A delay longer than the run that matters here. */
  const LONG_DELAY := 180

  // ---- How far apart they get ------------------------------------------------------------------

  /** Every state of the pair: the second getting ahead; taking turns; in the second's long frame;
      catching up; taking turns again. */
  predicate Passing(b: nat, p: Pace)
  {
    var c := Settling(b);
    || (!p.mid1 && !p.mid2 && p.f1 == 0 && p.f2 <= b)
    || (!p.mid1 && !p.mid2 && b <= p.f2 <= b + 60 && (p.f1 == p.f2 - b || p.f1 == p.f2 - b + 1) && p.f1 <= 60)
    || (!p.mid1 && p.mid2 && p.f2 == b + 60 && 60 <= p.f1 <= 119)
    || (!p.mid1 && !p.mid2 && p.f2 == b + 61 && 119 <= p.f1 <= 120)
    || (p.mid1 && !p.mid2 && p.f1 == 120 && b + 61 <= p.f2 <= 120 + c)
    || (!p.mid1 && !p.mid2 && p.f2 >= 120 + c && p.f1 >= 121 && (p.f1 == p.f2 - c || p.f1 == p.f2 - c + 1))
  }

  lemma {:induction false} EventsDoNothing(b: nat, p: Pace, who: bool, batch: Batch)
    ensures ApplyBatch(Hiccup(b), p, who, batch) == p
    decreases |batch|
  {
    if batch != [] {
      EventsDoNothing(b, p, who, batch[1..]);
    }
  }

  lemma HiccupIsLawful(b: nat, cable: Cable)
    requires cable.delay >= 1
    ensures Plugged(Hiccup(b), cable, OUTSET)
  {
  }

  lemma {:induction false} AlwaysPassing(b: nat, logs: Logs, n: nat)
    requires b <= 59 && CommonSequence(Hiccup(b), logs, OUTSET, n).Some?
    ensures var c := CommonSequence(Hiccup(b), logs, OUTSET, n).value.0;
      Passing(b, c.pair) && c.frame1 == c.pair.f1 && c.frame2 == c.pair.f2
  {
    if n > 0 {
      AlwaysPassing(b, logs, n - 1);
      var c := CommonSequence(Hiccup(b), logs, OUTSET, n - 1).value.0;
      var who := !SecondRunsNext(Hiccup(b), c.pair).value;
      if c.Frame(who) < |logs.Of(who)| {
        EventsDoNothing(b, c.pair, who, logs.Of(who)[c.Frame(who)]);
      }
      TurnKeepsPassing(b, c.pair);
    }
  }

  lemma TurnKeepsPassing(b: nat, p: Pace)
    requires b <= 59 && Passing(b, p)
    ensures Passing(b, Turn(b, p, Time(b, p, false) >= Time(b, p, true)).0)
  {
  }

  lemma PassingIsWithin(b: nat, p: Pace, lead1: nat, lead2: nat)
    requires b <= 59 && Passing(b, p) && 59 - b <= lead1 && b <= lead2
    ensures p.f1 <= p.f2 + lead1 && p.f2 <= p.f1 + lead2
  {
  }

  lemma HiccupSkew(b: nat, lead1: nat, lead2: nat)
    requires b <= 59 && 59 - b <= lead1 && b <= lead2
    ensures Skew(Hiccup(b), OUTSET, lead1, lead2)
  {
    hide CommonSequence, Hiccup, Passing;
    forall logs: Logs, n: nat | CommonSequence(Hiccup(b), logs, OUTSET, n).Some?
      ensures WithinSkew(CommonSequence(Hiccup(b), logs, OUTSET, n).value.0, lead1, lead2)
    {
      AlwaysPassing(b, logs, n);
      PassingIsWithin(b, CommonSequence(Hiccup(b), logs, OUTSET, n).value.0.pair, lead1, lead2);
    }
  }

  // ---- One step of the pair, on both machines --------------------------------------------------

  /** The machine of console `who` has the pair at `p`. */
  predicate Running(m: Machine<Pace, nat>, p: Pace, who: bool)
  {
    && m.pair == p && m.frame == FramesOf(p, who) && m.partnerFrame == FramesOf(p, !who) && m.firstFrames == p.f1
    && m.framePrepared == Mid(p, who) && m.partnerPrepared == Mid(p, !who)
    && m.begun.None? && m.failure.None?
  }

  function FramesOf(p: Pace, who: bool): nat { if who then p.f1 else p.f2 }

  predicate Mid(p: Pace, who: bool) { if who then p.mid1 else p.mid2 }

  /** Whose turn it is at `p`. */
  predicate FirstsTurn(b: nat, p: Pace) { Time(b, p, false) >= Time(b, p, true) }

  function Pass(b: nat, cable: Cable, who: bool, m: Machine<Pace, nat>): (Machine<Pace, nat>, Outcome)
  {
    Iterate(Hiccup(b), cable.For(who), m, [], false)
  }

  /** What a machine's pass does, when it neither fails nor waits: before the first console steps the
      hash that is due is taken, and one falls due when a second is complete; at the beginning of a
      frame of its own console the machine sends what is pending. */
  predicate Passed(b: nat, who: bool, m: Machine<Pace, nat>, p: Pace, q: Machine<Pace, nat>)
  {
    var first := FirstsTurn(b, p);
    var to := Turn(b, p, first).0;
    var pending := if first && m.hashDueAt.Some? then Some((m.hashDueAt.value, p.f1)) else m.pendingHash;
    var sends := first == who && !Mid(p, who);
    && Running(q, to, who)
    && q.hashDueAt == (if !first then m.hashDueAt
                       else if to.f1 > p.f1 && to.f1 % PAIR_HASH_INTERVAL_FRAMES == 0 then Some(to.f1) else None)
    && q.pendingHash == (if sends then None else pending)
    && |q.history| == |m.history| + 1
    && (if sends then |q.outbox| == |m.outbox| + 1 else q.outbox == m.outbox)
  }

  lemma TakesHash(b: nat, m: Machine<Pace, nat>, secondRuns: bool)
    ensures var (q, failure) := TakeDueHash(Hiccup(b), m, secondRuns);
      && q == m.(pendingHash := q.pendingHash, hashDueAt := q.hashDueAt, computedHashes := q.computedHashes,
                 receivedHashes := q.receivedHashes)
      && (if !secondRuns && m.hashDueAt.Some? then q.pendingHash == Some((m.hashDueAt.value, m.pair.f1))
          && q.hashDueAt.None? else q == m && failure.None?)
  {
  }

  lemma Prepares(b: nat, cable: Cable, who: bool, m: Machine<Pace, nat>)
    ensures var q := PrepareLocal(Hiccup(b), cable.For(who), m, []);
      && q == m.(queue := q.queue, outbox := q.outbox, pendingHash := None, nextSendFrame := q.nextSendFrame,
                 framePrepared := true, begun := q.begun)
      && |q.outbox| == |m.outbox| + 1
    ensures var q := PreparePartner(Hiccup(b), cable.For(who), m).0;
      && q == m.(inbox := q.inbox, receivedHashes := q.receivedHashes, partnerPrepared := q.partnerPrepared,
                 begun := q.begun)
      && (PreparePartner(Hiccup(b), cable.For(who), m).1.Ready? ==> q.partnerPrepared)
  {
    hide ApplyBatch;
    var sent := SendFresh(m, []);
    EventsDoNothing(b, m.pair, who, Queued(sent.queue, sent.frame));
    EventsDoNothing(b, m.pair, !who, [ChangeInput(cable.Input(!who))]);
    if m.partnerFrame in m.inbox.frames {
      EventsDoNothing(b, m.pair, !who, m.inbox.frames[m.partnerFrame].events);
    }
  }

  /** The step itself, of a console whose frame is prepared. */
  lemma Steps(b: nat, cable: Cable, who: bool, m: Machine<Pace, nat>, p: Pace, local: bool)
    requires Running(m.(begun := None, framePrepared := Mid(p, who), partnerPrepared := Mid(p, !who)), p, who)
    requires Prepared(m, local) && Prepared(m, !local) == Mid(p, if local then !who else who)
    ensures var (q, outcome) := StepOne(Hiccup(b), cable.For(who), m, local);
      var turn := who == local;
      var to := Turn(b, p, turn).0;
      && !outcome.Failed? && !outcome.Stalled?
      && Running(q, to, who) && |q.history| == |m.history| + 1 && q.outbox == m.outbox && q.pendingHash == m.pendingHash
      && q.hashDueAt
         == (if turn && to.f1 > p.f1 && to.f1 % PAIR_HASH_INTERVAL_FRAMES == 0 then Some(to.f1) else m.hashDueAt)
  {
  }

  lemma OwnTurn(b: nat, cable: Cable, who: bool, m: Machine<Pace, nat>, p: Pace)
    requires Running(m, p, who) && FirstsTurn(b, p) == who && !Pass(b, cable, who, m).1.Failed?
    ensures Passed(b, who, m, p, Pass(b, cable, who, m).0)
  {
    hide TakeDueHash, PrepareLocal, StepOne, Time, Turn;
    TakesHash(b, m, !who);
    var m1 := TakeDueHash(Hiccup(b), m, !who).0;
    Prepares(b, cable, who, m1);
    Steps(b, cable, who, if Mid(p, who) then m1 else PrepareLocal(Hiccup(b), cable.For(who), m1, []), p, true);
  }

  lemma PartnersTurn(b: nat, cable: Cable, who: bool, m: Machine<Pace, nat>, p: Pace)
    requires Running(m, p, who) && FirstsTurn(b, p) != who && !Pass(b, cable, who, m).1.Failed?
             && !Pass(b, cable, who, m).1.Stalled?
    ensures Passed(b, who, m, p, Pass(b, cable, who, m).0)
  {
    hide TakeDueHash, PreparePartner, StepOne, Time, Turn;
    TakesHash(b, m, who);
    var m1 := TakeDueHash(Hiccup(b), m, who).0;
    Prepares(b, cable, who, m1);
    var (m2, ready) := PreparePartner(Hiccup(b), cable.For(who), m1);
    if Mid(p, !who) {
      Steps(b, cable, who, m1, p, false);
    } else if ready.Ready? {
      Steps(b, cable, who, m2, p, false);
    }
  }

  /** The pair itself never gives up. */
  lemma FailuresAre(b: nat, cable: Cable, who: bool, m: Machine<Pace, nat>)
    ensures var (q, outcome) := Pass(b, cable, who, m);
      outcome.Failed? ==>
      (outcome.failure.PairHashMismatch? || outcome.failure.PartnerEnded?) && q.failure == Some(outcome.failure)
    ensures SecondRunsNext(Hiccup(b), m.pair) == Some(!who) ==>
      !Pass(b, cable, who, m).1.Failed? || !Pass(b, cable, who, m).1.failure.PartnerEnded?
  {
    hide PrepareLocal, Unmatched, FirstMismatch, Take, Stepped;
  }

  // ---- The two machines in step ----------------------------------------------------------------

  /** Both machines have the pair at `p`, after equally many steps and with everything delivered. */
  ghost predicate Together(b: nat, cable: Cable, s: Global<Pace, nat>, p: Pace)
  {
    && Reachable(Hiccup(b), cable, OUTSET, s)
    && Running(s.first, p, true) && Running(s.second, p, false)
    && |s.first.history| == |s.second.history| && AllArrived(s, true) && AllArrived(s, false)
  }

  /** The machine whose console's turn it is takes the step. */
  lemma OwnPass(b: nat, cable: Cable, s: Global<Pace, nat>, p: Pace) returns (t: Global<Pace, nat>)
    requires Together(b, cable, s, p)
    ensures var who := FirstsTurn(b, p);
      && Reachable(Hiccup(b), cable, OUTSET, t) && t == s.With(who, t.Of(who))
      && Passed(b, who, s.Of(who), p, t.Of(who))
  {
    hide Reachable, Iterate, Passed;
    var who := FirstsTurn(b, p);
    t := Next(Hiccup(b), cable, s, Run(who, [], false));
    ReachableNext(Hiccup(b), cable, OUTSET, s, Run(who, [], false));
    NoFalseAlarm(Hiccup(b), cable, OUTSET, t, who);
    FailuresAre(b, cable, who, s.Of(who));
    OwnTurn(b, cable, who, s.Of(who), p);
  }

  /** What it sent arrives. */
  lemma Arrives(b: nat, cable: Cable, s: Global<Pace, nat>, r: Global<Pace, nat>, who: bool)
      returns (t: Global<Pace, nat>)
    requires Reachable(Hiccup(b), cable, OUTSET, r) && r == s.With(who, r.Of(who))
    requires AllArrived(s, true) && AllArrived(s, false)
    requires |s.Of(who).outbox| <= |r.Of(who).outbox| <= |s.Of(who).outbox| + 1
    ensures Reachable(Hiccup(b), cable, OUTSET, t) && AllArrived(t, true) && AllArrived(t, false)
    ensures t.Of(who) == r.Of(who) && t.Of(!who) == s.Of(!who).(inbox := t.Of(!who).inbox)
  {
    hide Reachable, Push;
    var sent := |s.Of(who).outbox|;
    t := r;
    if |r.Of(who).outbox| > sent {
      t := Next(Hiccup(b), cable, r, Deliver(!who, sent));
      ReachableNext(Hiccup(b), cable, OUTSET, r, Deliver(!who, sent));
    }
    forall w ensures AllArrived(t, w) {
      assert AllArrived(s, w);
      forall i | 0 <= i < |t.Of(!w).outbox| ensures i in t.Delivered(w) {
        assert i < |s.Of(!w).outbox| ==> i in s.Delivered(w);
      }
    }
  }

  /** ... and the other machine takes the step too: it does not wait, as it has the frame, or, with a long
      delay, as it is still in the pre-filled ones. */
  lemma PartnerPass(b: nat, cable: Cable, s: Global<Pace, nat>, p: Pace) returns (t: Global<Pace, nat>)
    requires b <= 59 && p.f1 <= LONG_DELAY && p.f2 <= LONG_DELAY && Reachable(Hiccup(b), cable, OUTSET, s)
    requires var who := !FirstsTurn(b, p);
      Running(s.Of(who), p, who) && AllArrived(s, who) && |s.Of(who).history| <= |s.Of(!who).history|
    ensures var who := !FirstsTurn(b, p);
      && Reachable(Hiccup(b), cable, OUTSET, t) && t == s.With(who, t.Of(who))
      && Passed(b, who, s.Of(who), p, t.Of(who))
  {
    hide Reachable, Iterate, Passed, AllArrived, Skew;
    var who := !FirstsTurn(b, p);
    t := Next(Hiccup(b), cable, s, Run(who, [], false));
    ReachableNext(Hiccup(b), cable, OUTSET, s, Run(who, [], false));
    NoFalseAlarm(Hiccup(b), cable, OUTSET, t, who);
    if cable.delay <= LONG_DELAY {
      HiccupSkew(b, 59 - b, b);
      TheOneBehindNeverWaits(Hiccup(b), cable, OUTSET, s, who, [], false, 59 - b, b);
    } else {
      StallsOnlyWithoutEvents(Hiccup(b), cable.For(who), s.Of(who), [], false);
    }
    FailuresAre(b, cable, who, s.Of(who));
    PartnersTurn(b, cable, who, s.Of(who), p);
  }

  lemma BothPass(b: nat, cable: Cable, s: Global<Pace, nat>, p: Pace) returns (t: Global<Pace, nat>)
    requires b <= 59 && p.f1 <= LONG_DELAY && p.f2 <= LONG_DELAY && Together(b, cable, s, p)
    ensures Together(b, cable, t, Turn(b, p, FirstsTurn(b, p)).0) && Passed(b, false, s.second, p, t.second)
  {
    hide Reachable, Time, Turn;
    var who := FirstsTurn(b, p);
    var r := OwnPass(b, cable, s, p);
    var u := Arrives(b, cable, s, r, who);
    t := PartnerPass(b, cable, u, p);
    assert t.Of(!who).outbox == u.Of(!who).outbox && t.Of(who) == u.Of(who);
    forall w ensures AllArrived(t, w) {
      assert AllArrived(u, w) && (w == who || w == !who);
      assert t.Delivered(w) == u.Delivered(w) && t.Of(!w).outbox == u.Of(!w).outbox;
    }
    assert Running(t.Of(who), Turn(b, p, who).0, who) && Running(t.Of(!who), Turn(b, p, who).0, !who);
    assert Passed(b, who, s.Of(who), p, t.Of(who)) && Passed(b, !who, s.Of(!who), p, t.Of(!who));
  }

  // ---- The run ---------------------------------------------------------------------------------

  lemma AtOutset(b: nat, cable: Cable) returns (s: Global<Pace, nat>)
    requires cable.delay >= 1
    ensures Together(b, cable, s, OUTSET) && s.second.hashDueAt.None?
  {
    HiccupIsLawful(b, cable);
    s := Init<Pace, nat>(cable, OUTSET, [], []);
    assert ReachedBy(Hiccup(b), cable, OUTSET, s, [], [], []);
  }

  /** The second gets ahead. */
  lemma {:induction false} GettingAhead(b: nat, cable: Cable, k: nat) returns (s: Global<Pace, nat>)
    requires k <= b <= 59 && cable.delay >= 1
    ensures Together(b, cable, s, Pace(0, k, false, false)) && s.second.hashDueAt.None?
  {
    hide Together;
    if k == 0 {
      s := AtOutset(b, cable);
    } else {
      var r := GettingAhead(b, cable, k - 1);
      s := BothPass(b, cable, r, Pace(0, k - 1, false, false));
    }
  }

  /** Taking turns, up to the first's frame 60; the hash of second 60 falls due. */
  lemma {:induction false} TakingTurns(b: nat, cable: Cable, k: nat) returns (s: Global<Pace, nat>)
    requires b <= 59 && k <= 60 && cable.delay >= 1
    ensures Together(b, cable, s, Pace(k, b + k, false, false))
    ensures s.second.hashDueAt == if k == 60 then Some(60) else None
  {
    hide Together;
    if k == 0 {
      s := GettingAhead(b, cable, b);
    } else {
      var r := TakingTurns(b, cable, k - 1);
      s := BothPass(b, cable, r, Pace(k - 1, b + k - 1, false, false));
      s := BothPass(b, cable, s, Pace(k, b + k - 1, false, false));
    }
  }

  /** In the second's long frame: the hash of frame 60 was computed after the frame began, and waits. */
  lemma {:induction false} InLongFrame(b: nat, cable: Cable, k: nat) returns (s: Global<Pace, nat>)
    requires b <= 59 && 61 <= k <= 119 && cable.delay >= 1
    ensures Together(b, cable, s, Pace(k, b + 60, false, true))
    ensures s.second.hashDueAt.None? && s.second.pendingHash == Some((60, 60))
  {
    hide Together;
    if k == 61 {
      s := TakingTurns(b, cable, 60);
      s := BothPass(b, cable, s, Pace(60, b + 60, false, false));
      s := BothPass(b, cable, s, Pace(60, b + 60, false, true));
    } else {
      var r := InLongFrame(b, cable, k - 1);
      s := BothPass(b, cable, r, Pace(k - 1, b + 60, false, true));
    }
  }

  /** For any leads of 59 and more together, and any delay, there is a lawful pair within them,
      and a run of it, in which a hash is due while the one before it was not sent; the machine's next
      pass overwrites that one, sending nothing. */
  lemma AHashIsLost(cable: Cable, lead1: nat, lead2: nat) returns (b: nat, s: Global<Pace, nat>)
    requires lead1 + lead2 >= 59 && cable.delay >= 1
    ensures Reachable(Hiccup(b), cable, OUTSET, s) && Skew(Hiccup(b), OUTSET, lead1, lead2)
    ensures var m := s.Of(false);
      && m.failure.None? && m.hashDueAt.Some? && SecondRunsNext(Hiccup(b), m.pair) == Some(false)
      && m.pendingHash == Some((60, 60))
      && Pass(b, cable, false, m).0.pendingHash == Some((120, 120)) && Pass(b, cable, false, m).0.outbox == m.outbox
  {
    hide Reachable, Skew, Iterate;
    b := if lead2 < 59 then lead2 else 59;
    HiccupSkew(b, lead1, lead2);
    s := InLongFrame(b, cable, 119);
    s := BothPass(b, cable, s, Pace(119, b + 60, false, true));
    s := BothPass(b, cable, s, Pace(119, b + 61, false, false));
    NextOverwrites(b, cable, s);
  }

  lemma NextOverwrites(b: nat, cable: Cable, s: Global<Pace, nat>)
    requires b <= 59 && Together(b, cable, s, Pace(120, b + 61, false, false)) && s.second.hashDueAt == Some(120)
    ensures var q := Pass(b, cable, false, s.second).0;
      q.pendingHash == Some((120, 120)) && q.outbox == s.second.outbox
  {
    hide Reachable, AllArrived, TakeDueHash, PreparePartner, StepOne, Turn;
    TakesHash(b, s.second, false);
    var m := TakeDueHash(Hiccup(b), s.second, false).0;
    Prepares(b, cable, false, m);
    StepSendsNothing(b, cable, PreparePartner(Hiccup(b), cable.For(false), m).0);
  }

  lemma StepSendsNothing(b: nat, cable: Cable, m: Machine<Pace, nat>)
    ensures var q := StepOne(Hiccup(b), cable.For(false), m, false).0;
            q.pendingHash == m.pendingHash && q.outbox == m.outbox
  {
  }

  // ---- The exact bound -------------------------------------------------------------------------

  /** In every run of every pair within these leads: when a hash is about to be taken, none is waiting
      to be sent. */
  ghost predicate AlwaysSentInTime(cable: Cable, lead1: nat, lead2: nat)
  {
    forall g: Game<Pace, nat>, pair, s, who ::
      Reachable(g, cable, pair, s) && Skew(g, pair, lead1, lead2) && AboutToTakeHash(g, s.Of(who)) ==>
      s.Of(who).pendingHash.None?
  }

  ghost predicate AboutToTakeHash<P, H>(g: Game<P, H>, m: Machine<P, H>)
  {
    m.failure.None? && m.hashDueAt.Some? && SecondRunsNext(g, m.pair) == Some(false)
  }

  /** Hashes are always sent in time exactly when the two leads are at most 58 frames together. */
  lemma LeadsThatAreSafe(cable: Cable, lead1: nat, lead2: nat)
    requires cable.delay >= 1
    ensures AlwaysSentInTime(cable, lead1, lead2) <==> lead1 + lead2 <= 58
  {
    hide Reachable, Skew, Pass;
    if lead1 + lead2 <= 58 {
      forall g: Game<Pace, nat>, pair, s, who |
        Reachable(g, cable, pair, s) && Skew(g, pair, lead1, lead2) && AboutToTakeHash(g, s.Of(who))
        ensures s.Of(who).pendingHash.None?
      {
        HashesAreSentInTime(g, cable, pair, s, who, lead1, lead2);
      }
    } else {
      var b, s := AHashIsLost(cable, lead1, lead2);
      assert AboutToTakeHash(Hiccup(b), s.Of(false));
    }
  }
}
