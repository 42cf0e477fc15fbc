/** What the link cable promises, over every run of the two machines. */
module LinkTheorems {
  import opened Wrappers
  import opened LinkGame
  import opened LinkMachine
  import opened LinkRun

  ghost predicate Reachable<P(!new), H(!new)>(g: Game<P, H>, cable: Cable, pair: P, s: Global<P, H>)
  {
    exists heldFirst: seq<Event>, heldSecond: seq<Event>, actions: seq<Action> ::
      ReachedBy(g, cable, pair, s, heldFirst, heldSecond, actions)
  }

  ghost predicate ReachedBy<P(!new), H(!new)>(g: Game<P, H>, cable: Cable, pair: P, s: Global<P, H>,
                                              heldFirst: seq<Event>, heldSecond: seq<Event>, actions: seq<Action>)
  {
    && Plugged(g, cable, pair) && Writes(heldFirst) && Writes(heldSecond)
    && s == RunAll(g, cable, Init<P, H>(cable, pair, heldFirst, heldSecond), actions)
  }

  lemma ReachableInv<P(!new), H(!new)>(g: Game<P, H>, cable: Cable, pair: P, s: Global<P, H>)
    requires Reachable(g, cable, pair, s)
    ensures Plugged(g, cable, pair) && Inv(g, cable, pair, s)
  {
    var heldFirst, heldSecond, actions :| ReachedBy(g, cable, pair, s, heldFirst, heldSecond, actions);
    AlwaysInv(g, cable, pair, heldFirst, heldSecond, actions);
  }

  // ---- Agreement -------------------------------------------------------------------------------

  /** Still linked, and not between giving a console its frame's events and stepping it. */
  ghost predicate Settled<P, H>(m: Machine<P, H>) { m.failure.None? && m.begun.None? }

  /** Whatever the order in which messages arrive, however often, and however the two machines are
      paced: the pair steps the machines have taken begin one common sequence, determined by what
      the two players sent; after equally many steps the two pairs are the same. */
  lemma Agreement<P(!new), H(!new)>(g: Game<P, H>, cable: Cable, pair: P, s: Global<P, H>)
    requires Reachable(g, cable, pair, s)
    ensures s.first.history <= s.second.history || s.second.history <= s.first.history
    ensures forall who :: var at := CommonSequence(g, LogsOf(cable, s), pair, |s.Of(who).history|);
      at.Some? && at.value.1 == s.Of(who).history
    ensures |s.first.history| == |s.second.history| ==>
      s.first.frame == s.second.partnerFrame && s.first.partnerFrame == s.second.frame
    ensures |s.first.history| == |s.second.history| && Settled(s.first) && Settled(s.second) ==>
            s.first.pair == s.second.pair
  {
    ReachableInv(g, cable, pair, s);
    var logs := LogsOf(cable, s);
    assert MachineInv(g, cable, logs, pair, true, s.Of(true)) && MachineInv(g, cable, logs, pair, false, s.Of(false));
    var c1 := CommonSequence(g, logs, pair, |s.first.history|).value.0;
    var c2 := CommonSequence(g, logs, pair, |s.second.history|).value.0;
    TwoRunsAgree(g, logs, pair, s.first.history, c1, s.second.history, c2);
    TwoRunsAgree(g, logs, pair, s.second.history, c2, s.first.history, c1);
  }

  /** The events given to console `who` by these steps, frame by frame. */
  function Applied(steps: seq<StepRecord>, who: bool): seq<Batch>
  {
    if steps == [] then []
    else
      var last := steps[|steps| - 1];
      Applied(steps[..|steps| - 1], who) + if last.who == who && last.batch.Some? then [last.batch.value] else []
  }

  lemma {:induction false} AppliedIsLogPrefix<P(!new), H>(g: Game<P, H>, logs: Logs, pair: P, n: nat, who: bool)
    requires AtBoundary(g, pair) && CommonSequence(g, logs, pair, n).Some?
    ensures var (c, steps) := CommonSequence(g, logs, pair, n).value;
      Begun(c, who) <= |logs.Of(who)| && Applied(steps, who) == logs.Of(who)[..Begun(c, who)]
  {
    hide Advance;
    if n > 0 {
      AppliedIsLogPrefix(g, logs, pair, n - 1, who);
      UnpreparedIsAtBoundary(g, logs, pair, n - 1);
      var (c, steps) := CommonSequence(g, logs, pair, n - 1).value;
      AdvanceBegins(g, logs, c, who);
      var step := Advance(g, logs, c).value.1;
      assert (steps + [step])[..|steps|] == steps;
    }
  }

  function Begun<P>(c: Cursor<P>, who: bool): nat { c.Frame(who) + if c.Ready(who) then 1 else 0 }

  lemma AdvanceBegins<P(!new), H>(g: Game<P, H>, logs: Logs, c: Cursor<P>, who: bool)
    requires Lawful(g) && (!c.Ready(who) ==> !g.midFrame(c.pair, who)) && Advance(g, logs, c).Some?
             && Begun(c, who) <= |logs.Of(who)|
    ensures var (d, step) := Advance(g, logs, c).value;
      if step.who == who && step.batch.Some? then
        Begun(c, who) < |logs.Of(who)| && step.batch.value == logs.Of(who)[Begun(c, who)]
        && Begun(d, who) == Begun(c, who) + 1
      else Begun(d, who) == Begun(c, who)
  {
  }

  /** On both machines alike, every frame a console has begun was given exactly the batch its own
      machine committed to for that frame: the pre-filled input for the first `delay` frames, then
      what it sent, in order, each of them resets, then writes, then one input. */
  lemma EveryFrameGetsItsBatch<P(!new), H(!new)>(g: Game<P, H>, cable: Cable, pair: P, s: Global<P, H>, machine: bool,
      console: bool)
    requires Reachable(g, cable, pair, s)
    ensures var m := s.Of(machine);
      var frame := if console == machine then m.frame else m.partnerFrame;
      var log := LogOf(cable, console, s.Of(console).outbox);
      var applied := Applied(m.history, console);
      && applied <= log && frame <= |applied| <= frame + 1
      && (forall f :: 0 <= f < |log| ==> Complete(log[f]))
      && (forall f :: 0 <= f < |log| && f < cable.delay ==> log[f] == [ChangeInput(cable.Input(console))])
  {
    ReachableInv(g, cable, pair, s);
    var logs := LogsOf(cable, s);
    assert MachineInv(g, cable, logs, pair, machine, s.Of(machine))
           && MachineInv(g, cable, logs, pair, console, s.Of(console));
    hide MachineInv, InboxInv, LogOf;
    AppliedByMachine(g, cable, logs, pair, machine, s.Of(machine), console);
    LoggedIsComplete(g, cable, logs, pair, console, s.Of(console));
  }

  lemma AppliedByMachine<P(!new), H>(g: Game<P, H>, cable: Cable, logs: Logs, pair: P, who: bool, m: Machine<P, H>,
      console: bool)
    requires AtBoundary(g, pair) && MachineInv(g, cable, logs, pair, who, m)
    ensures Applied(m.history, console) <= logs.Of(console)
    ensures var frame := if console == who then m.frame else m.partnerFrame;
            frame <= |Applied(m.history, console)| <= frame + 1
  {
    AppliedIsLogPrefix(g, logs, pair, |m.history|, console);
  }

  lemma LoggedIsComplete<P, H>(g: Game<P, H>, cable: Cable, logs: Logs, pair: P, who: bool, m: Machine<P, H>)
    requires MachineInv(g, cable, logs, pair, who, m)
    ensures var log := LogOf(cable, who, m.outbox);
      && log == logs.Of(who) && (forall f :: 0 <= f < |log| ==> Complete(log[f]))
      && (forall f :: 0 <= f < |log| && f < cable.delay ==> log[f] == [ChangeInput(cable.Input(who))])
  {
  }

  /** The schedule at every moment: inputs go out exactly `delay` frames ahead, the frames between
      the one about to run and the next to be sent are all queued, and each is queued exactly as it
      was sent. */
  lemma ScheduleDiscipline<P(!new), H(!new)>(g: Game<P, H>, cable: Cable, pair: P, s: Global<P, H>, who: bool)
    requires Reachable(g, cable, pair, s)
    ensures var m := s.Of(who);
      && m.nextSendFrame == m.frame + cable.delay + (if m.framePrepared then 1 else 0)
      && |m.outbox| == m.nextSendFrame - cable.delay
      && (forall i :: 0 <= i < |m.outbox| ==> m.outbox[i].0 == cable.delay + i && Complete(m.outbox[i].1.events))
      && (forall f :: Lowest(m) <= f < m.nextSendFrame ==> f in m.queue)
      && (forall f :: f in m.queue && cable.delay <= f < m.nextSendFrame ==>
          m.queue[f] == m.outbox[f - cable.delay].1.events)
      && Scheduled(Queued(m.queue, m.nextSendFrame))
  {
    hide Reachable, OnTrack, HashInv, InboxInv, LogOf, Complete;
    ReachableInv(g, cable, pair, s);
    assert MachineInv(g, cable, LogsOf(cable, s), pair, who, s.Of(who));
    ScheduleReadsBack(cable, who, s.Of(who));
  }

  lemma ScheduleReadsBack<P, H>(cable: Cable, who: bool, m: Machine<P, H>)
    requires ScheduleInv(cable.delay, LogOf(cable, who, m.outbox), m)
    ensures forall i :: 0 <= i < |m.outbox| ==> Complete(m.outbox[i].1.events)
    ensures forall f :: f in m.queue && cable.delay <= f < m.nextSendFrame ==>
            m.queue[f] == m.outbox[f - cable.delay].1.events
  {
    var log := LogOf(cable, who, m.outbox);
    forall i | 0 <= i < |m.outbox| ensures Complete(m.outbox[i].1.events) {
      assert log[cable.delay + i] == m.outbox[i].1.events;
    }
  }

  // ---- Writes asked for while the console was held -----------------------------------------------

  predicate NoWrites(batch: Batch) { forall i :: 0 <= i < |batch| ==> !batch[i].WriteMemory? }

  /** The held writes still wait, and nothing queued or sent is a write. */
  ghost predicate StillWaiting<P, H>(m: Machine<P, H>, held: seq<Event>)
  {
    && m.waiting == held
    && (forall f :: f in m.queue ==> NoWrites(m.queue[f]))
    && (forall i :: 0 <= i < |m.outbox| ==> NoWrites(m.outbox[i].1.events))
  }

  lemma PassKeepsWaiting<P, H>(g: Game<P, H>, settings: Settings, m: Machine<P, H>, input: seq<bv8>, idle: bool,
      held: seq<Event>)
    requires StillWaiting(m, held)
    ensures StillWaiting(Iterate(g, settings, m, input, idle).0, held)
  {
    hide StillWaiting, TakeDueHash, PreparePartner, StepOne, PrepareLocal;
    var pass := Iterate(g, settings, m, input, idle).0;
    if SecondRunsNext(g, m.pair).None? {
      SameScheduleStillWaits(m, pass, held);
    } else {
      var secondRuns := SecondRunsNext(g, m.pair).value;
      var (m1, failure) := TakeDueHash(g, m, secondRuns);
      SameWaiting(g, settings, m);
      SameScheduleStillWaits(m, m1, held);
      if failure.Some? {
        SameScheduleStillWaits(m1, pass, held);
      } else if secondRuns != settings.localIsFirst {
        PreparingKeepsWaiting(g, settings, m1, input, held);
        var m2 := if !g.midFrame(m1.pair, settings.localIsFirst) && !m1.framePrepared
                  then PrepareLocal(g, settings, m1, input) else m1;
        SameWaiting(g, settings, m2);
        SameScheduleStillWaits(m2, pass, held);
      } else {
        SameWaiting(g, settings, m1);
        SameWaiting(g, settings, PreparePartner(g, settings, m1).0);
        SameScheduleStillWaits(m1, pass, held);
      }
    }
  }

  ghost predicate SameSchedule<P, H>(m: Machine<P, H>, m1: Machine<P, H>)
  {
    m1.waiting == m.waiting && m1.queue == m.queue && m1.outbox == m.outbox
  }

  lemma SameScheduleStillWaits<P, H>(m: Machine<P, H>, m1: Machine<P, H>, held: seq<Event>)
    requires StillWaiting(m, held) && SameSchedule(m, m1)
    ensures StillWaiting(m1, held)
  {
  }

  /** What touches no schedule. */
  lemma SameWaiting<P, H>(g: Game<P, H>, settings: Settings, m: Machine<P, H>)
    ensures forall second :: SameSchedule(m, TakeDueHash(g, m, second).0)
    ensures SameSchedule(m, PreparePartner(g, settings, m).0)
    ensures forall local :: SameSchedule(m, StepOne(g, settings, m, local).0)
  {
    hide ApplyBatch, TakeDueHash, StepOne, Unmatched, FirstMismatch;
    forall second ensures SameSchedule(m, TakeDueHash(g, m, second).0) {
      HashesTouchNoSchedule(g, m, second);
    }
    forall local ensures SameSchedule(m, StepOne(g, settings, m, local).0) {
      StepsTouchNoSchedule(g, settings, m, local);
    }
  }

  lemma HashesTouchNoSchedule<P, H>(g: Game<P, H>, m: Machine<P, H>, second: bool)
    ensures SameSchedule(m, TakeDueHash(g, m, second).0)
  {
  }

  lemma StepsTouchNoSchedule<P, H>(g: Game<P, H>, settings: Settings, m: Machine<P, H>, local: bool)
    ensures SameSchedule(m, StepOne(g, settings, m, local).0)
  {
  }

  lemma PreparingKeepsWaiting<P, H>(g: Game<P, H>, settings: Settings, m: Machine<P, H>, input: seq<bv8>,
      held: seq<Event>)
    requires StillWaiting(m, held)
    ensures StillWaiting(PrepareLocal(g, settings, m, input), held)
  {
    hide ApplyBatch;
    assert NoWrites(Queued(m.queue, m.nextSendFrame) + [ChangeInput(input)]);
  }

  lemma ActionKeepsWaiting<P, H>(g: Game<P, H>, cable: Cable, s: Global<P, H>, action: Action, who: bool,
      held: seq<Event>)
    requires StillWaiting(s.Of(who), held) && !(action.User? && action.who == who && action.event.WriteMemory?)
    ensures StillWaiting(Next(g, cable, s, action).Of(who), held)
  {
    hide Iterate;
    var m := s.Of(who);
    if action.who == who {
      match action
      case Run(_, input, idle) =>
        PassKeepsWaiting(g, cable.For(who), m, input, idle, held);
      case User(_, event) =>
        assert NoWrites(Placed(Queued(m.queue, m.nextSendFrame), ResetConsole));
      case _ =>
    } else {
      assert action.who == !who;
    }
  }

  /** However the pair is run, a write asked for while the console was held is not scheduled until another
      is asked for on the linked console: without one it is on neither machine given to the console. */
  lemma {:induction false} HeldWritesWait<P(!new), H(!new)>(g: Game<P, H>, cable: Cable, pair: P,
      heldFirst: seq<Event>, heldSecond: seq<Event>,
                                                            actions: seq<Action>, who: bool)
    requires Plugged(g, cable, pair) && Writes(heldFirst) && Writes(heldSecond)
    requires forall i :: 0 <= i < |actions| ==>
             !(actions[i].User? && actions[i].who == who && actions[i].event.WriteMemory?)
    ensures var s := RunAll(g, cable, Init<P, H>(cable, pair, heldFirst, heldSecond), actions);
      StillWaiting(s.Of(who), if who then heldFirst else heldSecond)
    decreases |actions|
  {
    hide Next, StillWaiting;
    if actions == [] {
      NothingQueuedButInput<P, H>(cable, pair, heldFirst, heldSecond, who);
    } else {
      HeldWritesWait(g, cable, pair, heldFirst, heldSecond, actions[..|actions| - 1], who);
      var before := RunAll(g, cable, Init<P, H>(cable, pair, heldFirst, heldSecond), actions[..|actions| - 1]);
      ActionKeepsWaiting(g, cable, before, actions[|actions| - 1], who, if who then heldFirst else heldSecond);
    }
  }

  lemma NothingQueuedButInput<P, H>(cable: Cable, pair: P, heldFirst: seq<Event>, heldSecond: seq<Event>, who: bool)
    ensures StillWaiting(Init<P, H>(cable, pair, heldFirst, heldSecond).Of(who), if who then heldFirst else heldSecond)
  {
    PrefillHolds(cable.delay, cable.Input(who));
  }

  lemma HeldWritesAreNotMade<P(!new), H(!new)>(g: Game<P, H>, cable: Cable, pair: P, heldFirst: seq<Event>,
      heldSecond: seq<Event>,
                                               actions: seq<Action>, who: bool, machine: bool)
    requires Plugged(g, cable, pair) && Writes(heldFirst) && Writes(heldSecond)
    requires forall i :: 0 <= i < |actions| ==>
             !(actions[i].User? && actions[i].who == who && actions[i].event.WriteMemory?)
    ensures var s := RunAll(g, cable, Init<P, H>(cable, pair, heldFirst, heldSecond), actions);
      forall batch :: batch in Applied(s.Of(machine).history, who) ==> NoWrites(batch)
  {
    hide RunAll, MachineInv, InboxInv, LogOf, StillWaiting;
    var s := RunAll(g, cable, Init<P, H>(cable, pair, heldFirst, heldSecond), actions);
    var held := if who then heldFirst else heldSecond;
    HeldWritesWait(g, cable, pair, heldFirst, heldSecond, actions, who);
    AlwaysInv(g, cable, pair, heldFirst, heldSecond, actions);
    assert MachineInv(g, cable, LogsOf(cable, s), pair, machine, s.Of(machine))
           && MachineInv(g, cable, LogsOf(cable, s), pair, who, s.Of(who));
    AppliedByMachine(g, cable, LogsOf(cable, s), pair, machine, s.Of(machine), who);
    SentHasNoWrites(cable, who, s.Of(who), held);
    LoggedIsComplete(g, cable, LogsOf(cable, s), pair, who, s.Of(who));
    var log := LogOf(cable, who, s.Of(who).outbox);
    forall batch | batch in Applied(s.Of(machine).history, who) ensures NoWrites(batch) {
      assert batch in log;
    }
  }

  lemma SentHasNoWrites<P, H>(cable: Cable, who: bool, m: Machine<P, H>, held: seq<Event>)
    requires StillWaiting(m, held)
    ensures forall batch :: batch in LogOf(cable, who, m.outbox) ==> NoWrites(batch)
  {
    forall batch | batch in LogOf(cable, who, m.outbox) ensures NoWrites(batch) {
      var k :| 0 <= k < |LogOf(cable, who, m.outbox)| && LogOf(cable, who, m.outbox)[k] == batch;
    }
  }

  /** The next write asked for takes them along: all of them, right before it, in the frame sent next. */
  lemma TheNextWriteTakesThemAlong<P(!new), H(!new)>(g: Game<P, H>, cable: Cable, pair: P, s: Global<P, H>, who: bool,
      event: Event)
    requires Reachable(g, cable, pair, s) && event.WriteMemory?
    ensures var m, m1 := s.Of(who), Next(g, cable, s, User(who, event)).Of(who);
      && m1.waiting == [] && m1.nextSendFrame == m.nextSendFrame
      && Queued(m1.queue, m.nextSendFrame) == Queued(m.queue, m.nextSendFrame) + m.waiting + [event]
  {
    hide Reachable;
    ReachableInv(g, cable, pair, s);
    var m := s.Of(who);
    assert MachineInv(g, cable, LogsOf(cable, s), pair, who, m);
    hide MachineInv;
    WaitingAreWrites(g, cable, LogsOf(cable, s), pair, who, m);
    WritesGoLast(m.(waiting := []), m.waiting + [event]);
    assert Queued(m.queue, m.nextSendFrame) + (m.waiting + [event])
           == Queued(m.queue, m.nextSendFrame) + m.waiting + [event];
  }

  lemma {:induction false} WritesGoLast<P, H>(m: Machine<P, H>, events: seq<Event>)
    requires Writes(events)
    ensures var m1 := ScheduleAll(m, events);
      m1 == m.(queue := m1.queue) && Queued(m1.queue, m.nextSendFrame) == Queued(m.queue, m.nextSendFrame) + events
    decreases |events|
  {
    if events == [] {
      assert Queued(m.queue, m.nextSendFrame) + [] == Queued(m.queue, m.nextSendFrame);
    } else {
      WritesGoLast(Schedule(m, events[0]), events[1..]);
      assert events == [events[0]] + events[1..];
    }
  }

  // ---- Pair hashes -----------------------------------------------------------------------------

  /** Honest machines never disagree about a pair hash. */
  lemma NoFalseAlarm<P(!new), H(!new)>(g: Game<P, H>, cable: Cable, pair: P, s: Global<P, H>, who: bool)
    requires Reachable(g, cable, pair, s)
    ensures s.Of(who).failure.Some? ==> !s.Of(who).failure.value.PairHashMismatch?
    ensures forall x, y :: x in s.Of(who).computedHashes && y in s.Of(!who).computedHashes && x.0 == y.0 ==> x == y
  {
    ReachableInv(g, cable, pair, s);
    var logs := LogsOf(cable, s);
    assert MachineInv(g, cable, logs, pair, who, s.Of(who)) && MachineInv(g, cable, logs, pair, !who, s.Of(!who));
    forall x, y | x in s.Of(who).computedHashes && y in s.Of(!who).computedHashes && x.0 == y.0 ensures x == y {
      assert Genuine(g, logs, pair, x) && Genuine(g, logs, pair, y);
      GenuineIsUnique(g, logs, pair, x, y);
    }
  }

  /** A received hash that differs from the one remembered here for its frame. */
  ghost predicate Differs<H>(received: (nat, H), computed: seq<(nat, H)>)
  {
    Lookup(computed, received.0).Some? && Lookup(computed, received.0).value != received.1
  }

  /** Matching fails exactly when some received hash differs from the remembered one of its frame,
      and names the first such. */
  lemma {:induction false} MismatchIsFound<H>(received: seq<(nat, H)>, computed: seq<(nat, H)>)
    ensures match FirstMismatch(received, computed)
      case None => forall i :: 0 <= i < |received| ==> !Differs(received[i], computed)
      case Some(frame) =>
        exists i :: 0 <= i < |received| && Differs(received[i], computed) && received[i].0 == frame
          && forall j :: 0 <= j < i ==> !Differs(received[j], computed)
  {
    if received != [] {
      MismatchIsFound(received[1..], computed);
      if !Differs(received[0], computed) {
        var rest := received[1..];
        match FirstMismatch(rest, computed) {
          case None =>
            forall i | 0 <= i < |received| ensures !Differs(received[i],
                    computed) { if i > 0 { assert received[i] == rest[i - 1]; } }
          case Some(frame) =>
            var i :| 0 <= i < |rest| && Differs(rest[i], computed) && rest[i].0 == frame && forall j :: 0 <= j < i ==>
            !Differs(rest[j], computed);
            assert received[i + 1] == rest[i];
            forall j | 0 <= j < i
                   + 1 ensures !Differs(received[j], computed) { if j > 0 { assert received[j] == rest[j - 1]; } }
        }
      }
    }
  }

  /** A diverged pair is noticed: a partner's hash that differs from the one still remembered here
      fails the link, and so does a hash computed here that differs from one already received. */
  lemma DivergenceIsNoticed<P, H>(m: Machine<P, H>, frame: nat, hash: H)
    ensures Differs((frame, hash), m.computedHashes) ==>
      NoteReceivedHash(m, Some((frame, hash))).1.Some?
      && NoteReceivedHash(m, Some((frame, hash))).1.value.PairHashMismatch?
    ensures (forall x :: x in m.computedHashes ==> x.0 != frame)
      && (exists other :: (frame, other) in m.receivedHashes && other != hash)
      ==> NoteComputedHash(m, frame, hash).1.Some? && NoteComputedHash(m, frame, hash).1.value.PairHashMismatch?
  {
    hide FirstMismatch, Unmatched;
    if Differs((frame, hash), m.computedHashes) {
      var received := m.receivedHashes + [(frame, hash)];
      MismatchIsFound(received, m.computedHashes);
      assert Differs(received[|m.receivedHashes|], m.computedHashes);
    }
        if (forall x :: x in m.computedHashes ==> x.0 != frame) && exists other ::
           (frame, other) in m.receivedHashes && other != hash {
      var computed := Newest(m.computedHashes + [(frame, hash)]);
      var kept := computed[..|computed| - 1];
      assert computed == kept + [(frame, hash)];
      LookupLast(kept, frame, hash);
      MismatchIsFound(m.receivedHashes, computed);
      var other :| (frame, other) in m.receivedHashes && other != hash;
      var i :| 0 <= i < |m.receivedHashes| && m.receivedHashes[i] == (frame, other);
      assert Differs(m.receivedHashes[i], computed);
    }
  }

  lemma {:induction false} LookupLast<H>(hashes: seq<(nat, H)>, frame: nat, hash: H)
    requires forall x :: x in hashes ==> x.0 != frame
    ensures Lookup(hashes + [(frame, hash)], frame) == Some(hash)
  {
    if hashes != [] {
      assert (hashes + [(frame, hash)])[1..] == hashes[1..] + [(frame, hash)];
      assert hashes[0] in hashes;
      LookupLast(hashes[1..], frame, hash);
    }
  }

  // ---- The loop as a run -----------------------------------------------------------------------

  lemma ReachableNext<P(!new), H(!new)>(g: Game<P, H>, cable: Cable, pair: P, s: Global<P, H>, action: Action)
    requires Reachable(g, cable, pair, s)
    ensures Reachable(g, cable, pair, Next(g, cable, s, action))
  {
    var heldFirst, heldSecond, actions :| ReachedBy(g, cable, pair, s, heldFirst, heldSecond, actions);
    var longer := actions + [action];
    assert longer[..|longer| - 1] == actions;
    assert ReachedBy(g, cable, pair, Next(g, cable, s, action), heldFirst, heldSecond, longer);
  }

  lemma {:induction false} LoopIsARun<P(!new), H(!new)>(g: Game<P, H>, cable: Cable, pair: P, s: Global<P, H>,
      who: bool, input: seq<bv8>, idle: bool, budget: nat)
    requires Reachable(g, cable, pair, s) && s.Of(who).failure.None?
    ensures Reachable(g, cable, pair, s.With(who, RunLinked(g, cable.For(who), s.Of(who), input, idle, budget).0))
    decreases budget
  {
    hide Iterate, Reachable;
    if budget == 0 {
      ReachableNext(g, cable, pair, s, GiveUp(who));
    } else {
      ReachableNext(g, cable, pair, s, Run(who, input, idle));
      var (m1, outcome) := Iterate(g, cable.For(who), s.Of(who), input, idle);
      if outcome.PartnerRan? {
        PartnerRanDidNotFail(g, cable.For(who), s.Of(who), input, idle);
        LoopIsARun(g, cable, pair, s.With(who, m1), who, input, idle, budget - 1);
        assert s.With(who, m1).With(who, RunLinked(g, cable.For(who), m1, input, idle, budget - 1).0)
            == s.With(who, RunLinked(g, cable.For(who), m1, input, idle, budget - 1).0);
      }
    }
  }

  /** One call of the whole bounded loop on either machine, failed or not, is some run of the system, so
      everything above holds after any number of calls on both sides. */
  lemma CallIsARun<P(!new), H(!new)>(g: Game<P, H>, cable: Cable, pair: P, s: Global<P, H>, who: bool, input: seq<bv8>,
      idle: bool)
    requires Reachable(g, cable, pair, s)
    ensures Reachable(g, cable, pair, s.With(who, CallRunLinked(g, cable.For(who), s.Of(who), input, idle).0))
  {
    hide Reachable, RunLinked;
    if s.Of(who).failure.None? {
      LoopIsARun(g, cable, pair, s, who, input, idle, MAX_STEPS);
    } else {
      assert s.With(who, s.Of(who)) == s;
    }
  }

  lemma PartnerRanDidNotFail<P, H>(g: Game<P, H>, settings: Settings, m: Machine<P, H>, input: seq<bv8>, idle: bool)
    requires m.failure.None?
    ensures var (m1, outcome) := Iterate(g, settings, m, input, idle); outcome.PartnerRan? ==> m1.failure.None?
  {
    hide LocalTurn, PartnerTurn, TakeDueHash;
    if SecondRunsNext(g, m.pair).Some? {
      var m1 := TakeDueHash(g, m, SecondRunsNext(g, m.pair).value).0;
      TakingAHashDoesNotFail(g, m, SecondRunsNext(g, m.pair).value);
      TurnsDoNotFail(g, settings, m1, input, idle);
    }
  }

  lemma TakingAHashDoesNotFail<P, H>(g: Game<P, H>, m: Machine<P, H>, secondRuns: bool)
    ensures TakeDueHash(g, m, secondRuns).0.failure == m.failure
  {
  }

  lemma TurnsDoNotFail<P, H>(g: Game<P, H>, settings: Settings, m: Machine<P, H>, input: seq<bv8>, idle: bool)
    requires m.failure.None?
    ensures !LocalTurn(g, settings, m, input, idle).1.PartnerRan?
    ensures var (m1, outcome) := PartnerTurn(g, settings, m); outcome.PartnerRan? ==> m1.failure.None?
  {
    hide PreparePartner, PrepareLocal;
    PreparingDoesNotFail(g, settings, m);
  }

  lemma PreparingDoesNotFail<P, H>(g: Game<P, H>, settings: Settings, m: Machine<P, H>)
    ensures PreparePartner(g, settings, m).0.failure == m.failure
  {
  }
}
