/** Every pair hash computed is sent: the next one never overwrites it. */
module LinkHashes {
  import opened Wrappers
  import opened LinkGame
  import opened LinkMachine
  import opened LinkRun
  import opened LinkTheorems
  import opened LinkProgress

  /** `entry` was computed after `n` steps, when the second console had begun `begun` frames. */
  ghost predicate ComputedAt<P, H>(g: Game<P, H>, logs: Logs, pair: P, n: nat, entry: (nat, H), begun: nat)
  {
    && GenuineAt(g, logs, pair, n, entry.0, entry.1)
    && Begun(CommonSequence(g, logs, pair, n).value.0, false) == begun
  }

  ghost predicate UnsentSince<P, H>(g: Game<P, H>, logs: Logs, pair: P, entry: (nat, H), begun: nat)
  {
    exists n: nat :: ComputedAt(g, logs, pair, n, entry, begun)
  }

  /** Hashes are taken at whole seconds of the first console, each later than the ones before. */
  ghost predicate WholeSeconds<P, H>(m: Machine<P, H>)
  {
    && (forall x :: x in m.computedHashes ==> x.0 % PAIR_HASH_INTERVAL_FRAMES == 0 && x.0 <= m.firstFrames)
    && (m.pendingHash.Some? ==>
        m.pendingHash.value.0 % PAIR_HASH_INTERVAL_FRAMES == 0 && m.pendingHash.value.0 <= m.firstFrames)
    && (m.hashDueAt.Some? ==>
          && m.hashDueAt.value == m.firstFrames && m.firstFrames % PAIR_HASH_INTERVAL_FRAMES == 0
          && (m.pendingHash.Some? ==> m.pendingHash.value.0 < m.firstFrames)
          && (forall x :: x in m.computedHashes ==> x.0 < m.firstFrames))
  }

  /** A hash waiting to be sent belongs to the machine of the second console, which has begun no
      frame since it was computed. */
  ghost predicate PendingInv<P, H>(g: Game<P, H>, logs: Logs, pair: P, who: bool, m: Machine<P, H>)
  {
    m.failure.None? ==>
      && WholeSeconds(m)
      && (m.pendingHash.Some? ==> !who && UnsentSince(g, logs, pair, m.pendingHash.value, Lowest(m)))
  }

  ghost predicate PendingsInv<P, H>(g: Game<P, H>, cable: Cable, pair: P, s: Global<P, H>)
  {
    forall who :: PendingInv(g, LogsOf(cable, s), pair, who, s.Of(who))
  }

  lemma PendingExtends<P, H>(g: Game<P, H>, older: Logs, newer: Logs, pair: P, who: bool, m: Machine<P, H>)
    requires newer.Extends(older) && PendingInv(g, older, pair, who, m)
    ensures PendingInv(g, newer, pair, who, m)
  {
    if m.failure.None? && m.pendingHash.Some? {
      var entry := m.pendingHash.value;
      var n: nat :| ComputedAt(g, older, pair, n, entry, Lowest(m));
      CommonSequenceExtends(g, older, newer, pair, n);
      assert ComputedAt(g, newer, pair, n, entry, Lowest(m));
    }
  }

  // ---- Preservation ----------------------------------------------------------------------------

  lemma TakePending<P(!new), H>(g: Game<P, H>, cable: Cable, logs: Logs, pair: P, who: bool, m: Machine<P, H>,
      secondRuns: bool)
    requires AtBoundary(g, pair) && MachineInv(g, cable, logs, pair, who, m) && m.failure.None?
             && PendingInv(g, logs, pair, who, m)
    requires SecondRunsNext(g, m.pair) == Some(secondRuns)
    ensures var m1 := TakeDueHash(g, m, secondRuns).0;
      && WholeSeconds(m1) && Lowest(m1) == Lowest(m)
      && (m1.pendingHash.Some? && !who ==> UnsentSince(g, logs, pair, m1.pendingHash.value, Lowest(m1)))
      && (m1.pendingHash.Some? && who ==> !secondRuns && !m1.framePrepared)
  {
    if !secondRuns && m.hashDueAt.Some? {
      var c := CommonSequence(g, logs, pair, |m.history|).value.0;
      BegunKeepsTurn(g, logs, who, m, c);
      assert m.begun.None?;
      var entry := (m.hashDueAt.value, g.pairHash(m.pair));
      if !who {
        assert Begun(c, false) == Lowest(m);
        assert ComputedAt(g, logs, pair, |m.history|, entry, Lowest(m));
      }
      var m1 := TakeDueHash(g, m, secondRuns).0;
      assert m1.pendingHash == Some(entry);
      assert forall x :: x in m1.computedHashes ==> x == entry || x in m.computedHashes;
    }
  }

  lemma StepPending<P(!new), H>(g: Game<P, H>, logs: Logs, pair: P, who: bool, settings: Settings, m: Machine<P, H>,
      local: bool)
    requires Lawful(g) && PendingInv(g, logs, pair, who, m) && settings.localIsFirst == who && m.failure.None?
    requires local ==> m.framePrepared
    requires who == local ==> m.hashDueAt.None?
    ensures PendingInv(g, logs, pair, who, StepOne(g, settings, m, local).0)
  {
    hide UnsentSince, StepOne, WholeSeconds, Lowest;
    StepWholeSeconds(g, settings, m, local);
  }

  lemma StepWholeSeconds<P(!new), H>(g: Game<P, H>, settings: Settings, m: Machine<P, H>, local: bool)
    requires Lawful(g) && WholeSeconds(m) && (settings.localIsFirst == local ==> m.hashDueAt.None?)
             && (local ==> m.framePrepared)
    ensures var m1 := StepOne(g, settings, m, local).0;
      WholeSeconds(m1) && Lowest(m1) == Lowest(m) && m1.pendingHash == m.pendingHash
  {
    hide WholeSeconds, Lowest, FrameCompleted, FirstFrameCompleted;
    var who := settings.localIsFirst == local;
    if g.step(m.pair, who).Some? {
      var (q, frames) := g.step(m.pair, who).value;
      var m1 := m.(pair := q, begun := None, history := m.history + [StepRecord(who, m.begun, frames)]);
      FlagsKeepWholeSeconds(m, m1);
      CompletingKeepsWholeSeconds(m1, local, frames);
      var m2 := Stepped(m, settings, local, q, frames);
      FlagsKeepWholeSeconds(m2, if local then m2.(stalled := false) else m2);
    } else {
      FlagsKeepWholeSeconds(m, m.(failure := Some(Emulator)));
    }
  }

  lemma FlagsKeepWholeSeconds<P, H>(m: Machine<P, H>, m1: Machine<P, H>)
    requires WholeSeconds(m)
    requires m1 == m.(pair := m1.pair, begun := m1.begun, history := m1.history, stalled := m1.stalled,
                      failure := m1.failure)
    ensures WholeSeconds(m1) && Lowest(m1) == Lowest(m) && m1.pendingHash == m.pendingHash
            && m1.hashDueAt == m.hashDueAt
  {
  }

  lemma CompletingKeepsWholeSeconds<P, H>(m: Machine<P, H>, local: bool, frames: nat)
    requires WholeSeconds(m) && frames <= 1 && (local ==> m.framePrepared)
    ensures var m1 := FrameCompleted(m, local, frames);
      && WholeSeconds(m1) && Lowest(m1) == Lowest(m) && m1.pendingHash == m.pendingHash
      && (m.hashDueAt.None? ==> var m2 := FirstFrameCompleted(m1);
          WholeSeconds(m2) && Lowest(m2) == Lowest(m) && m2.pendingHash == m.pendingHash)
  {
  }

  /** What a pass does to the hashes before it comes to the step itself. */
  lemma PreparePartnerPending<P, H>(g: Game<P, H>, logs: Logs, pair: P, who: bool, settings: Settings, m: Machine<P, H>)
    requires PendingInv(g, logs, pair, who, m)
    ensures PendingInv(g, logs, pair, who, PreparePartner(g, settings, m).0)
            && PreparePartner(g, settings, m).0.hashDueAt == m.hashDueAt
  {
    hide ApplyBatch, UnsentSince, Take, Unmatched, FirstMismatch;
    assert Lowest(PreparePartner(g, settings, m).0) == Lowest(m);
  }

  lemma PrepareLocalPending<P, H>(g: Game<P, H>, logs: Logs, pair: P, who: bool, settings: Settings, m: Machine<P, H>,
      input: seq<bv8>)
    requires WholeSeconds(m)
    ensures var m1 := PrepareLocal(g, settings, m, input);
      PendingInv(g, logs, pair, who, m1) && m1.failure == m.failure && m1.hashDueAt == m.hashDueAt && m1.framePrepared
  {
  }

  lemma IteratePending<P(!new), H>(g: Game<P, H>, cable: Cable, older: Logs, newer: Logs, pair: P, who: bool,
      m: Machine<P, H>,
                                   sent: seq<(nat, LinkFrame<H>)>, input: seq<bv8>, idle: bool)
    requires Plugged(g, cable, pair) && MachineInv(g, cable, older, pair, who, m) && m.failure.None?
             && PendingInv(g, older, pair, who, m)
    requires newer.Extends(older)
    ensures PendingInv(g, newer, pair, who, Iterate(g, cable.For(who), m, input, idle).0)
  {
    hide MachineInv, TakeDueHash, PrepareLocal, PreparePartner, StepOne, UnsentSince, WholeSeconds, Lowest;
    if SecondRunsNext(g, m.pair).Some? {
      var settings := cable.For(who);
      var secondRuns := SecondRunsNext(g, m.pair).value;
      TakeDueHashInv(g, cable, older, pair, who, m, secondRuns);
      TakePending(g, cable, older, pair, who, m, secondRuns);
      var m1 := TakeDueHash(g, m, secondRuns).0;
      if secondRuns != who {
        LocalPending(g, cable, older, newer, pair, who, m1, input, idle);
      } else {
        PendingExtends(g, older, newer, pair, who, m1);
        PartnerPending(g, cable, older, newer, pair, who, m1);
      }
    }
  }

  lemma LocalPending<P(!new), H>(g: Game<P, H>, cable: Cable, older: Logs, newer: Logs, pair: P, who: bool,
      m: Machine<P, H>, input: seq<bv8>, idle: bool)
    requires Plugged(g, cable, pair) && MachineInv(g, cable, older, pair, who, m) && m.failure.None?
             && newer.Extends(older)
    requires SecondRunsNext(g, m.pair) == Some(!who) && (who ==> m.hashDueAt.None?)
    requires WholeSeconds(m)
    requires m.pendingHash.Some? && !who ==> UnsentSince(g, older, pair, m.pendingHash.value, Lowest(m))
    requires m.pendingHash.Some? && who ==> !m.framePrepared
    ensures PendingInv(g, newer, pair, who, LocalTurn(g, cable.For(who), m, input, idle).0)
  {
    hide MachineInv, PrepareLocal, StepOne, UnsentSince, WholeSeconds, Lowest;
    var settings := cable.For(who);
    var m1 := m;
    if !m.framePrepared {
      UnpreparedMachineAtBoundary(g, cable, older, pair, who, m, who);
      m1 := PrepareLocal(g, settings, m, input);
      PrepareLocalPending(g, newer, pair, who, settings, m, input);
    } else {
      PendingExtends(g, older, newer, pair, who, m);
    }
    StepPending(g, newer, pair, who, settings, m1, true);
    var m2 := LocalTurn(g, settings, m, input, idle).0;
    if idle { IdleKeepsPending(g, newer, pair, who, m1); }
  }

  lemma IdleKeepsPending<P, H>(g: Game<P, H>, logs: Logs, pair: P, who: bool, m: Machine<P, H>)
    requires PendingInv(g, logs, pair, who, m)
    ensures PendingInv(g, logs, pair, who, m.(stalled := false))
  {
    assert Lowest(m.(stalled := false)) == Lowest(m);
  }

  lemma PartnerPending<P(!new), H>(g: Game<P, H>, cable: Cable, older: Logs, newer: Logs, pair: P, who: bool,
      m: Machine<P, H>)
    requires Plugged(g, cable, pair) && MachineInv(g, cable, older, pair, who, m) && m.failure.None?
    requires SecondRunsNext(g, m.pair) == Some(who) && (!who ==> m.hashDueAt.None?)
    requires PendingInv(g, newer, pair, who, m)
    ensures PendingInv(g, newer, pair, who, PartnerTurn(g, cable.For(who), m).0)
  {
    hide MachineInv, PreparePartner, StepOne, UnsentSince, WholeSeconds, Lowest;
    var settings := cable.For(who);
    if m.partnerPrepared {
      StepPending(g, newer, pair, who, settings, m, false);
    } else {
      UnpreparedMachineAtBoundary(g, cable, older, pair, who, m, !who);
      PreparePartnerPending(g, newer, pair, who, settings, m);
      var (m1, ready) := PreparePartner(g, settings, m);
      PreparePartnerNeverFails(g, settings, m);
      match ready
      case Ready => StepPending(g, newer, pair, who, settings, m1, false);
      case Waiting => StallKeepsPending(g, newer, pair, who, m1);
      case _ =>
    }
  }

  lemma StallKeepsPending<P, H>(g: Game<P, H>, logs: Logs, pair: P, who: bool, m: Machine<P, H>)
    requires PendingInv(g, logs, pair, who, m)
    ensures PendingInv(g, logs, pair, who, m.(stalled := true))
  {
    assert Lowest(m.(stalled := true)) == Lowest(m);
  }

  lemma PreparePartnerNeverFails<P, H>(g: Game<P, H>, settings: Settings, m: Machine<P, H>)
    ensures PreparePartner(g, settings, m).0.failure == m.failure
  {
  }

  lemma NextKeepsPendings<P(!new), H>(g: Game<P, H>, cable: Cable, pair: P, s: Global<P, H>, action: Action)
    requires Plugged(g, cable, pair) && Inv(g, cable, pair, s) && PendingsInv(g, cable, pair, s)
    ensures PendingsInv(g, cable, pair, Next(g, cable, s, action))
  {
    hide Iterate, MachineInv, InboxInv, LogOf, PendingInv;
    var who := action.who;
    var m, t := s.Of(who), Next(g, cable, s, action);
    var older, newer := LogsOf(cable, s), LogsOf(cable, t);
    NextKeepsInv(g, cable, pair, s, action);
    assert PendingInv(g, older, pair, who, m) && PendingInv(g, older, pair, !who, s.Of(!who));
    PendingExtends(g, older, newer, pair, !who, s.Of(!who));
    if action.Run? && m.failure.None? {
      assert MachineInv(g, cable, older, pair, who, m);
      IteratePending(g, cable, older, newer, pair, who, m, s.Of(!who).outbox, action.input, action.idle);
    } else {
      PendingExtends(g, older, newer, pair, who, m);
      if action.User? && (action.event.WriteMemory? || action.event.ResetConsole?) {
        AskKeepsInv(g, cable, older, pair, who, m, action.event);
      }
      SameHashesKeepPending(g, newer, pair, who, m, t.Of(who));
    }
    forall w ensures PendingInv(g, newer, pair, w, t.Of(w)) { if w != who { assert w == !who; } }
  }

  lemma SameHashesKeepPending<P, H>(g: Game<P, H>, logs: Logs, pair: P, who: bool, m: Machine<P, H>, m1: Machine<P, H>)
    requires PendingInv(g, logs, pair, who, m)
    requires m1 == m.(queue := m1.queue, waiting := m1.waiting, inbox := m1.inbox, failure := m1.failure)
             && (m1.failure == m.failure || m1.failure.Some?)
    ensures PendingInv(g, logs, pair, who, m1)
  {
    assert Lowest(m1) == Lowest(m);
  }

  lemma {:induction false} AlwaysPending<P(!new), H>(g: Game<P, H>, cable: Cable, pair: P, heldFirst: seq<Event>,
      heldSecond: seq<Event>, actions: seq<Action>)
    requires Plugged(g, cable, pair) && Writes(heldFirst) && Writes(heldSecond)
    ensures PendingsInv(g, cable, pair, RunAll(g, cable, Init<P, H>(cable, pair, heldFirst, heldSecond), actions))
    decreases |actions|
  {
    hide MachineInv, BeginLink, Next;
    if actions == [] {
      var logs := Logs(LogOf<H>(cable, true, []), LogOf<H>(cable, false, []));
      BeginLinkInv(g, cable, logs, pair, true, heldFirst);
      BeginLinkInv(g, cable, logs, pair, false, heldSecond);
    } else {
      var before := RunAll(g, cable, Init<P, H>(cable, pair, heldFirst, heldSecond), actions[..|actions| - 1]);
      AlwaysPending(g, cable, pair, heldFirst, heldSecond, actions[..|actions| - 1]);
      AlwaysInv(g, cable, pair, heldFirst, heldSecond, actions[..|actions| - 1]);
      NextKeepsPendings(g, cable, pair, before, actions[|actions| - 1]);
    }
  }

  // ---- The result ------------------------------------------------------------------------------

  /** While the two leads are at most 58 frames together, the hash computed before has always been sent by the
      time the next one is due. */
  lemma HashesAreSentInTime<P(!new), H(!new)>(g: Game<P, H>, cable: Cable, pair: P, s: Global<P, H>, who: bool,
      lead1: nat, lead2: nat)
    requires Reachable(g, cable, pair, s) && Skew(g, pair, lead1, lead2)
             && lead1 + lead2 + 1 < PAIR_HASH_INTERVAL_FRAMES
    requires s.Of(who).failure.None? && s.Of(who).hashDueAt.Some? && SecondRunsNext(g, s.Of(who).pair) == Some(false)
    ensures s.Of(who).pendingHash.None?
    ensures forall x :: x in s.Of(who).computedHashes ==> x.0 < s.Of(who).hashDueAt.value
  {
    var heldFirst, heldSecond, actions :| ReachedBy(g, cable, pair, s, heldFirst, heldSecond, actions);
    AlwaysInv(g, cable, pair, heldFirst, heldSecond, actions);
    AlwaysPending(g, cable, pair, heldFirst, heldSecond, actions);
    var logs, m := LogsOf(cable, s), s.Of(who);
    assert MachineInv(g, cable, logs, pair, who, m) && PendingInv(g, logs, pair, who, m);
    if m.pendingHash.Some? {
      PendingWasLongAgo(g, cable, logs, pair, m, lead1, lead2);
    }
  }

  lemma PendingWasLongAgo<P(!new), H>(g: Game<P, H>, cable: Cable, logs: Logs, pair: P, m: Machine<P, H>, lead1: nat,
      lead2: nat)
    requires AtBoundary(g, pair) && MachineInv(g, cable, logs, pair, false, m) && PendingInv(g, logs, pair, false, m)
    requires Skew(g, pair, lead1, lead2) && m.failure.None? && m.hashDueAt.Some? && m.pendingHash.Some?
    requires SecondRunsNext(g, m.pair) == Some(false)
    ensures lead1 + lead2 + 1 >= PAIR_HASH_INTERVAL_FRAMES
  {
    var c := CommonSequence(g, logs, pair, |m.history|).value.0;
    BegunKeepsTurn(g, logs, false, m, c);
    assert m.begun.None?;
    var n: nat :| ComputedAt(g, logs, pair, n, m.pendingHash.value, Lowest(m));
    var d := CommonSequence(g, logs, pair, n).value.0;
    assert WithinSkew(c, lead1, lead2) && WithinSkew(d, lead1, lead2);
    assert c.frame1 - d.frame1 >= PAIR_HASH_INTERVAL_FRAMES;
  }
}
