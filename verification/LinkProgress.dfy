/**
  Nothing sent is lost to the inbox's limit, and the two machines never wait on each other.

  Both rest on how far the two consoles of one pair can drift apart, in link frames.
 */
module LinkProgress {
  import opened Wrappers
  import opened LinkGame
  import opened LinkMachine
  import opened LinkRun
  import opened LinkTheorems

  /** Whatever the players do, the first console of the pair never gets more than `lead1` frames
      ahead of the second, nor the second more than `lead2` ahead of the first. */
  ghost predicate Skew<P, H>(g: Game<P, H>, pair: P, lead1: nat, lead2: nat)
  {
    forall logs: Logs, n: nat :: CommonSequence(g, logs, pair, n).Some? ==>
           WithinSkew(CommonSequence(g, logs, pair, n).value.0, lead1, lead2)
  }

  ghost predicate WithinSkew<P>(c: Cursor<P>, lead1: nat, lead2: nat)
  {
    c.frame1 <= c.frame2 + lead1 && c.frame2 <= c.frame1 + lead2
  }

  /** Delay and drift small enough for the inbox. */
  ghost predicate FitsInbox(delay: nat, lead1: nat, lead2: nat)
  {
    3 * delay + lead1 + lead2 + 1 <= MAX_INBOX_AHEAD_FRAMES
  }

  /** The partner frames whose events have been taken or pre-filled. */
  function Taken<P, H>(m: Machine<P, H>): nat { m.partnerFrame + if m.partnerPrepared then 1 else 0 }

  /** Every message that reached the machine was taken or is held; none taken was not sent. */
  ghost predicate DeliveryInv<P, H>(delay: nat, m: Machine<P, H>, sent: nat, delivered: set<nat>)
  {
    && m.inbox.applied == (if Taken(m) > delay then Taken(m) else 0)
    && Taken(m) <= delay + sent
    && (forall i :: i in delivered ==> i < sent && (delay + i < Taken(m) || delay + i in m.inbox.frames))
    && (forall i :: 0 <= i < sent && i !in delivered ==> delay + i >= Taken(m) && delay + i !in m.inbox.frames)
    && (forall f :: f in m.inbox.frames ==> delay <= f < delay + sent && f >= Taken(m))
  }

  ghost predicate DeliveriesInv<P, H>(cable: Cable, s: Global<P, H>)
  {
    forall who :: DeliveryInv(cable.delay, s.Of(who), |s.Of(!who).outbox|, s.Delivered(who))
  }

  // ---- The inbox bound -------------------------------------------------------------------------

  lemma MachineWithinSkew<P, H>(g: Game<P, H>, cable: Cable, logs: Logs, pair: P, who: bool, m: Machine<P, H>,
      lead1: nat, lead2: nat)
    requires MachineInv(g, cable, logs, pair, who, m) && Skew(g, pair, lead1, lead2)
    ensures if who then m.frame <= m.partnerFrame + lead1 && m.partnerFrame <= m.frame + lead2
            else m.partnerFrame <= m.frame + lead1 && m.frame <= m.partnerFrame + lead2
  {
    assert WithinSkew(CommonSequence(g, logs, pair, |m.history|).value.0, lead1, lead2);
  }

  /** No message of a machine is ever more than the limit ahead of what the other has taken. */
  lemma MessagesFit<P(!new), H(!new)>(g: Game<P, H>, cable: Cable, pair: P, s: Global<P, H>, who: bool, lead1: nat,
      lead2: nat)
    requires Plugged(g, cable, pair) && Inv(g, cable, pair, s) && DeliveriesInv(cable, s)
    requires Skew(g, pair, lead1, lead2) && FitsInbox(cable.delay, lead1, lead2)
    ensures forall message :: message in s.Of(!who).outbox ==>
            message.0 <= s.Of(who).inbox.applied + MAX_INBOX_AHEAD_FRAMES
  {
    hide MachineInv, Skew, InboxInv, LogOf;
    var logs := LogsOf(cable, s);
    var m, peer := s.Of(who), s.Of(!who);
    assert MachineInv(g, cable, logs, pair, who, m) && MachineInv(g, cable, logs, pair, !who, peer);
    assert DeliveryInv(cable.delay, m, |peer.outbox|, s.Delivered(who))
           && DeliveryInv(cable.delay, peer, |m.outbox|, s.Delivered(!who));
    MachineWithinSkew(g, cable, logs, pair, who, m, lead1, lead2);
    MachineWithinSkew(g, cable, logs, pair, !who, peer, lead1, lead2);
    SentInOrder(g, cable, logs, pair, who, m);
    SentInOrder(g, cable, logs, pair, !who, peer);
  }

  // ---- Preservation ----------------------------------------------------------------------------

  ghost predicate SamePartner<P, H>(m: Machine<P, H>, m1: Machine<P, H>)
  {
    m1.inbox == m.inbox.(ended := m1.inbox.ended) && m1.partnerFrame == m.partnerFrame
    && m1.partnerPrepared == m.partnerPrepared
  }

  lemma LocalTurnLeavesPartner<P, H>(g: Game<P, H>, settings: Settings, m: Machine<P, H>, input: seq<bv8>, idle: bool)
    ensures SamePartner(m, LocalTurn(g, settings, m, input, idle).0)
  {
    hide PrepareLocal, StepOne;
    PrepareLocalLeavesPartner(g, settings, m, input);
    LocalStepLeavesPartner(g, settings, m);
    LocalStepLeavesPartner(g, settings, PrepareLocal(g, settings, m, input));
  }

  lemma PrepareLocalLeavesPartner<P, H>(g: Game<P, H>, settings: Settings, m: Machine<P, H>, input: seq<bv8>)
    ensures SamePartner(m, PrepareLocal(g, settings, m, input))
  {
    hide ApplyBatch;
  }

  lemma LocalStepLeavesPartner<P, H>(g: Game<P, H>, settings: Settings, m: Machine<P, H>)
    ensures SamePartner(m, StepOne(g, settings, m, true).0)
  {
  }

  lemma TakeDueHashLeavesPartner<P, H>(g: Game<P, H>, m: Machine<P, H>, secondRuns: bool)
    ensures SamePartner(m, TakeDueHash(g, m, secondRuns).0)
  {
  }

  /** One pass of a machine's loop. */
  lemma IterateDelivery<P(!new), H>(g: Game<P, H>, cable: Cable, logs: Logs, pair: P, who: bool, m: Machine<P, H>,
      sent: nat, delivered: set<nat>, input: seq<bv8>, idle: bool)
    requires Plugged(g, cable, pair) && MachineInv(g, cable, logs, pair, who, m) && m.failure.None?
    requires DeliveryInv(cable.delay, m, sent, delivered)
    ensures DeliveryInv(cable.delay, Iterate(g, cable.For(who), m, input, idle).0, sent, delivered)
  {
    hide MachineInv, LocalTurn, PartnerTurn, TakeDueHash;
    if SecondRunsNext(g, m.pair).Some? {
      var secondRuns := SecondRunsNext(g, m.pair).value;
      TakeDueHashInv(g, cable, logs, pair, who, m, secondRuns);
      TakeDueHashLeavesPartner(g, m, secondRuns);
      var m1 := TakeDueHash(g, m, secondRuns).0;
      if secondRuns == who {
        PartnerDelivery(g, cable, logs, pair, who, m1, sent, delivered);
      } else {
        LocalTurnLeavesPartner(g, cable.For(who), m1, input, idle);
      }
    }
  }

  lemma PartnerDelivery<P(!new), H>(g: Game<P, H>, cable: Cable, logs: Logs, pair: P, who: bool, m: Machine<P, H>,
      sent: nat, delivered: set<nat>)
    requires Plugged(g, cable, pair) && MachineInv(g, cable, logs, pair, who, m) && m.failure.None?
    requires DeliveryInv(cable.delay, m, sent, delivered)
    requires SecondRunsNext(g, m.pair) == Some(who)
    ensures DeliveryInv(cable.delay, PartnerTurn(g, cable.For(who), m).0, sent, delivered)
  {
    hide MachineInv, PreparePartner, StepOne, DeliveryInv;
    if m.partnerPrepared {
      StepDelivery(g, cable.For(who), m, sent, delivered);
    } else {
      UnpreparedMachineAtBoundary(g, cable, logs, pair, who, m, !who);
      PrepareDelivery(g, cable.For(who), m, sent, delivered);
      var (m1, ready) := PreparePartner(g, cable.For(who), m);
      match ready
      case Ready => StepDelivery(g, cable.For(who), m1, sent, delivered);
      case Mismatch(failure) => FlagsKeepDelivery(cable.delay, m1, m1.(failure := Some(failure)), sent, delivered);
      case Waiting => FlagsKeepDelivery(cable.delay, m1, m1.(stalled := true), sent, delivered);
      case Ended => FlagsKeepDelivery(cable.delay, m1, m1.(failure := Some(PartnerEnded)), sent, delivered);
    }
  }

  lemma FlagsKeepDelivery<P, H>(delay: nat, m: Machine<P, H>, m1: Machine<P, H>, sent: nat, delivered: set<nat>)
    requires DeliveryInv(delay, m, sent, delivered) && SamePartner(m, m1)
    ensures DeliveryInv(delay, m1, sent, delivered)
  {
  }

  lemma StepDelivery<P(!new), H>(g: Game<P, H>, settings: Settings, m: Machine<P, H>, sent: nat, delivered: set<nat>)
    requires Lawful(g) && DeliveryInv(settings.delay, m, sent, delivered) && m.partnerPrepared
    ensures DeliveryInv(settings.delay, StepOne(g, settings, m, false).0, sent, delivered)
  {
    var m1 := StepOne(g, settings, m, false).0;
    assert m1.inbox == m.inbox && Taken(m1) == Taken(m);
  }

  lemma PrepareDelivery<P, H>(g: Game<P, H>, settings: Settings, m: Machine<P, H>, sent: nat, delivered: set<nat>)
    requires DeliveryInv(settings.delay, m, sent, delivered) && !m.partnerPrepared && settings.delay >= 1
    ensures var (m1, ready) := PreparePartner(g, settings, m);
      DeliveryInv(settings.delay, m1, sent, delivered) && (ready.Ready? || ready.Mismatch? ==> m1.partnerPrepared)
      && (ready.Waiting? || ready.Ended? ==> m1 == m)
  {
    if m.partnerFrame < settings.delay || m.partnerFrame in m.inbox.frames {
      var (inbox, linkFrame) := PartnerEvents(settings, m);
      var m0 := m.(inbox := inbox, partnerPrepared := true, begun := Some(linkFrame.events),
                   pair := ApplyBatch(g, m.pair, !settings.localIsFirst, linkFrame.events));
      TakeDelivery(settings, m, m0, sent, delivered);
      FlagsKeepDelivery(settings.delay, m0, PreparePartner(g, settings, m).0, sent, delivered);
    }
  }

  lemma TakeDelivery<P, H>(settings: Settings, m: Machine<P, H>, m0: Machine<P, H>, sent: nat, delivered: set<nat>)
    requires DeliveryInv(settings.delay, m, sent, delivered) && !m.partnerPrepared && settings.delay >= 1
    requires m.partnerFrame < settings.delay || m.partnerFrame in m.inbox.frames
    requires m0.inbox == PartnerEvents(settings, m).0 && m0.partnerPrepared && m0.partnerFrame == m.partnerFrame
    ensures DeliveryInv(settings.delay, m0, sent, delivered)
  {
  }

  lemma RunKeepsDeliveries<P(!new), H(!new)>(g: Game<P, H>, cable: Cable, pair: P, s: Global<P, H>, who: bool,
      input: seq<bv8>, idle: bool)
    requires Plugged(g, cable, pair) && Inv(g, cable, pair, s) && DeliveriesInv(cable, s) && s.Of(who).failure.None?
    ensures DeliveriesInv(cable, Next(g, cable, s, Run(who, input, idle)))
  {
    hide Iterate, MachineInv, InboxInv, LogOf, DeliveryInv;
    var m, peer, t := s.Of(who), s.Of(!who), Next(g, cable, s, Run(who, input, idle));
    assert DeliveryInv(cable.delay, m, |peer.outbox|, s.Delivered(who))
           && DeliveryInv(cable.delay, peer, |m.outbox|, s.Delivered(!who));
    assert MachineInv(g, cable, LogsOf(cable, s), pair, who, m);
    IterateDelivery(g, cable, LogsOf(cable, s), pair, who, m, |peer.outbox|, s.Delivered(who), input, idle);
    RunSendsMore(g, cable, pair, s, who, input, idle);
    MoreSent(cable.delay, peer, |m.outbox|, |t.Of(who).outbox|, s.Delivered(!who));
    ByPlayer(cable, t, who);
  }

  lemma ArrivalKeepsDeliveries<P(!new), H(!new)>(g: Game<P, H>, cable: Cable, pair: P, s: Global<P, H>, who: bool,
      index: nat, lead1: nat, lead2: nat)
    requires Plugged(g, cable, pair) && Inv(g, cable, pair, s) && DeliveriesInv(cable, s) && index < |s.Of(!who).outbox|
    requires Skew(g, pair, lead1, lead2) && FitsInbox(cable.delay, lead1, lead2)
    ensures DeliveriesInv(cable, Next(g, cable, s, Deliver(who, index)))
  {
    hide Skew, FitsInbox, MachineInv, InboxInv, LogOf, DeliveryInv;
    var m, peer, t := s.Of(who), s.Of(!who), Next(g, cable, s, Deliver(who, index));
    assert DeliveryInv(cable.delay, m, |peer.outbox|, s.Delivered(who))
           && DeliveryInv(cable.delay, peer, |m.outbox|, s.Delivered(!who));
    MessagesFit(g, cable, pair, s, who, lead1, lead2);
    assert MachineInv(g, cable, LogsOf(cable, s), pair, !who, peer);
    SentInOrder(g, cable, LogsOf(cable, s), pair, !who, peer);
    assert peer.outbox[index] in peer.outbox;
    PushDelivery(cable.delay, m, |peer.outbox|, s.Delivered(who), index, peer.outbox[index].1);
    ByPlayer(cable, t, who);
  }

  /** An action that leaves what was sent, taken and delivered as it was. */
  lemma QuietKeepsDeliveries<P, H>(cable: Cable, s: Global<P, H>, t: Global<P, H>, who: bool)
    requires DeliveriesInv(cable, s) && t == s.With(who, t.Of(who))
    requires SamePartner(s.Of(who), t.Of(who)) && t.Of(who).outbox == s.Of(who).outbox
    ensures DeliveriesInv(cable, t)
  {
    hide DeliveryInv;
    var m, peer := s.Of(who), s.Of(!who);
    assert DeliveryInv(cable.delay, m, |peer.outbox|, s.Delivered(who))
           && DeliveryInv(cable.delay, peer, |m.outbox|, s.Delivered(!who));
    FlagsKeepDelivery(cable.delay, m, t.Of(who), |peer.outbox|, s.Delivered(who));
    ByPlayer(cable, t, who);
  }

  lemma NextKeepsDeliveries<P(!new), H(!new)>(g: Game<P, H>, cable: Cable, pair: P, s: Global<P, H>, action: Action,
      lead1: nat, lead2: nat)
    requires Plugged(g, cable, pair) && Inv(g, cable, pair, s) && DeliveriesInv(cable, s)
    requires Skew(g, pair, lead1, lead2) && FitsInbox(cable.delay, lead1, lead2)
    ensures DeliveriesInv(cable, Next(g, cable, s, action))
  {
    hide Iterate, Skew, FitsInbox, MachineInv, InboxInv, LogOf, DeliveriesInv, Push, Ask;
    var who := action.who;
    var m, t := s.Of(who), Next(g, cable, s, action);
    match action
    case Run(_, input, idle) =>
      if m.failure.None? { RunKeepsDeliveries(g, cable, pair, s, who, input, idle); }
    case User(_, event) =>
      if event.WriteMemory? || event.ResetConsole? {
        assert MachineInv(g, cable, LogsOf(cable, s), pair, who, m);
        AskKeepsInv(g, cable, LogsOf(cable, s), pair, who, m, event);
        QuietKeepsDeliveries(cable, s, t, who);
      }
    case Deliver(_, index) =>
      if index < |s.Of(!who).outbox| { ArrivalKeepsDeliveries(g, cable, pair, s, who, index, lead1, lead2); }
    case End(_) => QuietKeepsDeliveries(cable, s, t, who);
    case GiveUp(_) => QuietKeepsDeliveries(cable, s, t, who);
  }

  lemma ByPlayer<P, H>(cable: Cable, t: Global<P, H>, who: bool)
    requires DeliveryInv(cable.delay, t.Of(who), |t.Of(!who).outbox|, t.Delivered(who))
    requires DeliveryInv(cable.delay, t.Of(!who), |t.Of(who).outbox|, t.Delivered(!who))
    ensures DeliveriesInv(cable, t)
  {
    forall w ensures DeliveryInv(cable.delay, t.Of(w), |t.Of(!w).outbox|,
                                 t.Delivered(w)) { if w != who { assert w == !who; } }
  }

  lemma RunSendsMore<P(!new), H>(g: Game<P, H>, cable: Cable, pair: P, s: Global<P, H>, who: bool, input: seq<bv8>,
      idle: bool)
    requires Plugged(g, cable, pair) && Inv(g, cable, pair, s) && s.Of(who).failure.None?
    ensures |s.Of(who).outbox| <= |Iterate(g, cable.For(who), s.Of(who), input, idle).0.outbox|
  {
    var t := Next(g, cable, s, Run(who, input, idle));
    RunKeepsInv(g, cable, pair, s, who, input, idle);
    assert |LogsOf(cable, s).Of(who)| <= |LogsOf(cable, t).Of(who)|;
  }

  lemma MoreSent<P, H>(delay: nat, m: Machine<P, H>, sent: nat, more: nat, delivered: set<nat>)
    requires DeliveryInv(delay, m, sent, delivered) && sent <= more
    ensures DeliveryInv(delay, m, more, delivered)
  {
  }

  /** A message within the limit is taken in, or was already taken. */
  lemma PushDelivery<P, H>(delay: nat, m: Machine<P, H>, sent: nat, delivered: set<nat>, index: nat,
      linkFrame: LinkFrame<H>)
    requires DeliveryInv(delay, m, sent, delivered) && index < sent
             && delay + index <= m.inbox.applied + MAX_INBOX_AHEAD_FRAMES
    ensures DeliveryInv(delay, m.(inbox := Push(m.inbox, delay + index, linkFrame)), sent, delivered + {index})
  {
    assert Taken(m.(inbox := Push(m.inbox, delay + index, linkFrame))) == Taken(m);
  }

  lemma {:induction false} AlwaysDelivered<P(!new), H(!new)>(g: Game<P, H>, cable: Cable, pair: P,
      heldFirst: seq<Event>, heldSecond: seq<Event>, actions: seq<Action>, lead1: nat, lead2: nat)
    requires Plugged(g, cable, pair) && Writes(heldFirst) && Writes(heldSecond)
    requires Skew(g, pair, lead1, lead2) && FitsInbox(cable.delay, lead1, lead2)
    ensures DeliveriesInv(cable, RunAll(g, cable, Init<P, H>(cable, pair, heldFirst, heldSecond), actions))
    decreases |actions|
  {
    hide MachineInv, BeginLink, Next, Skew, FitsInbox;
    if actions == [] {
      var s := Init<P, H>(cable, pair, heldFirst, heldSecond);
      var logs := Logs(LogOf<H>(cable, true, []), LogOf<H>(cable, false, []));
      BeginLinkInv(g, cable, logs, pair, true, heldFirst);
      BeginLinkInv(g, cable, logs, pair, false, heldSecond);
      ByPlayer(cable, s, true);
    } else {
      var before := RunAll(g, cable, Init<P, H>(cable, pair, heldFirst, heldSecond), actions[..|actions| - 1]);
      AlwaysDelivered(g, cable, pair, heldFirst, heldSecond, actions[..|actions| - 1], lead1, lead2);
      AlwaysInv(g, cable, pair, heldFirst, heldSecond, actions[..|actions| - 1]);
      NextKeepsDeliveries(g, cable, pair, before, actions[|actions| - 1], lead1, lead2);
    }
  }

  lemma ReachableDeliveries<P(!new), H(!new)>(g: Game<P, H>, cable: Cable, pair: P, s: Global<P, H>, lead1: nat,
      lead2: nat)
    requires Reachable(g, cable, pair, s) && Skew(g, pair, lead1, lead2) && FitsInbox(cable.delay, lead1, lead2)
    ensures Plugged(g, cable, pair) && Inv(g, cable, pair, s) && DeliveriesInv(cable, s)
  {
    var heldFirst, heldSecond, actions :| ReachedBy(g, cable, pair, s, heldFirst, heldSecond, actions);
    AlwaysInv(g, cable, pair, heldFirst, heldSecond, actions);
    AlwaysDelivered(g, cable, pair, heldFirst, heldSecond, actions, lead1, lead2);
  }

  // ---- The results -----------------------------------------------------------------------------

  /** A message arriving for the first time is never dropped: it is neither behind what was taken
      nor beyond the limit, and it is held afterwards. */
  lemma HonestFramesAreKept<P(!new), H(!new)>(g: Game<P, H>, cable: Cable, pair: P, s: Global<P, H>, who: bool,
      index: nat, lead1: nat, lead2: nat)
    requires Reachable(g, cable, pair, s) && Skew(g, pair, lead1, lead2) && FitsInbox(cable.delay, lead1, lead2)
    requires index < |s.Of(!who).outbox| && index !in s.Delivered(who)
    ensures var (frame, linkFrame) := s.Of(!who).outbox[index];
      var inbox := Next(g, cable, s, Deliver(who, index)).Of(who).inbox;
      && s.Of(who).inbox.applied <= frame <= s.Of(who).inbox.applied + MAX_INBOX_AHEAD_FRAMES
      && frame in inbox.frames && inbox.frames[frame] == linkFrame
  {
    hide MachineInv, Skew, FitsInbox, InboxInv, LogOf, Reachable;
    ReachableDeliveries(g, cable, pair, s, lead1, lead2);
    MessagesFit(g, cable, pair, s, who, lead1, lead2);
    var peer := s.Of(!who);
    assert MachineInv(g, cable, LogsOf(cable, s), pair, !who, peer);
    SentInOrder(g, cable, LogsOf(cable, s), pair, !who, peer);
    assert peer.outbox[index] in peer.outbox;
    assert DeliveryInv(cable.delay, s.Of(who), |peer.outbox|, s.Delivered(who));
  }

  /** Everything sent to `who` has arrived. */
  ghost predicate AllArrived<P, H>(s: Global<P, H>, who: bool)
  {
    forall i :: 0 <= i < |s.Of(!who).outbox| ==> i in s.Delivered(who)
  }

  lemma BehindInFrames<P(!new), H>(g: Game<P, H>, cable: Cable, logs: Logs, pair: P, who: bool, m: Machine<P, H>,
      peer: Machine<P, H>)
    requires MachineInv(g, cable, logs, pair, who, m) && MachineInv(g, cable, logs, pair, !who, peer)
             && |m.history| <= |peer.history|
    ensures m.partnerFrame <= peer.frame
  {
    var c := CommonSequence(g, logs, pair, |m.history|).value.0;
    var d := CommonSequence(g, logs, pair, |peer.history|).value.0;
    TwoRunsAgree(g, logs, pair, m.history, c, peer.history, d);
  }

  /** The machine that has taken no more pair steps than the other never waits once what was sent
      to it has arrived; so the two machines are never both waiting with nothing on its way. */
  lemma TheOneBehindNeverWaits<P(!new), H(!new)>(g: Game<P, H>, cable: Cable, pair: P, s: Global<P, H>, who: bool,
      input: seq<bv8>, idle: bool, lead1: nat, lead2: nat)
    requires Reachable(g, cable, pair, s) && Skew(g, pair, lead1, lead2) && FitsInbox(cable.delay, lead1, lead2)
    requires s.Of(who).failure.None? && AllArrived(s, who) && |s.Of(who).history| <= |s.Of(!who).history|
    ensures Iterate(g, cable.For(who), s.Of(who), input, idle).1 != Stalled
    ensures Iterate(g, cable.For(who), s.Of(who), input, idle).1 != Failed(PartnerEnded)
  {
    hide MachineInv, Skew, InboxInv, LogOf, Iterate, FitsInbox, Reachable;
    ReachableDeliveries(g, cable, pair, s, lead1, lead2);
    var logs := LogsOf(cable, s);
    var m, peer := s.Of(who), s.Of(!who);
    assert MachineInv(g, cable, logs, pair, who, m) && MachineInv(g, cable, logs, pair, !who, peer);
    BehindInFrames(g, cable, logs, pair, who, m, peer);
    SentInOrder(g, cable, logs, pair, !who, peer);
    assert DeliveryInv(cable.delay, m, |peer.outbox|, s.Delivered(who));
    StallsOnlyWithoutEvents(g, cable.For(who), m, input, idle);
    if m.partnerFrame >= cable.delay && !m.partnerPrepared {
      assert m.partnerFrame - cable.delay in s.Delivered(who);
    }
  }

  lemma StallsOnlyWithoutEvents<P, H>(g: Game<P, H>, settings: Settings, m: Machine<P, H>, input: seq<bv8>, idle: bool)
    ensures Iterate(g, settings, m, input, idle).1 == Stalled
            || Iterate(g, settings, m, input, idle).1 == Failed(PartnerEnded) ==>
      !m.partnerPrepared && m.partnerFrame >= settings.delay && m.partnerFrame !in m.inbox.frames
  {
    hide TakeDueHash, PreparePartner, StepOne, PrepareLocal;
    if SecondRunsNext(g, m.pair).Some? {
      var secondRuns := SecondRunsNext(g, m.pair).value;
      var m1 := TakeDueHash(g, m, secondRuns).0;
      TakeDueHashLeavesPartner(g, m, secondRuns);
      OnlyAMismatch(g, m, secondRuns);
      WaitsOnlyWithoutEvents(g, settings, m1);
      StepsOrGivesUp(g, settings, m1);
      StepsOrGivesUp(g, settings, PrepareLocal(g, settings, m1, input));
      StepsOrGivesUp(g, settings, PreparePartner(g, settings, m1).0);
    }
  }

  lemma OnlyAMismatch<P, H>(g: Game<P, H>, m: Machine<P, H>, secondRuns: bool)
    ensures TakeDueHash(g, m, secondRuns).1.Some? ==> TakeDueHash(g, m, secondRuns).1.value.PairHashMismatch?
  {
  }

  lemma WaitsOnlyWithoutEvents<P, H>(g: Game<P, H>, settings: Settings, m: Machine<P, H>)
    ensures var ready := PreparePartner(g, settings, m).1;
      && (ready.Waiting? || ready.Ended? ==> m.partnerFrame >= settings.delay && m.partnerFrame !in m.inbox.frames)
      && (ready.Mismatch? ==> ready.failure.PairHashMismatch?)
  {
    hide ApplyBatch;
  }

  lemma StepsOrGivesUp<P, H>(g: Game<P, H>, settings: Settings, m: Machine<P, H>)
    ensures forall local :: var outcome := StepOne(g, settings, m, local).1;
            outcome != Stalled && outcome != Failed(PartnerEnded)
  {
  }

  lemma NeverBothWaiting<P(!new), H(!new)>(g: Game<P, H>, cable: Cable, pair: P, s: Global<P, H>, lead1: nat,
      lead2: nat)
    requires Reachable(g, cable, pair, s) && Skew(g, pair, lead1, lead2) && FitsInbox(cable.delay, lead1, lead2)
    requires forall who :: s.Of(who).failure.None? && AllArrived(s, who)
    ensures exists who :: forall input, idle :: Iterate(g, cable.For(who), s.Of(who), input, idle).1 != Stalled
  {
    var who := |s.first.history| <= |s.second.history|;
    forall input, idle ensures Iterate(g, cable.For(who), s.Of(who), input, idle).1 != Stalled {
      TheOneBehindNeverWaits(g, cable, pair, s, who, input, idle, lead1, lead2);
    }
  }

  ghost predicate OneMore(before: seq<StepRecord>, after: seq<StepRecord>)
  {
    |after| == |before| + 1 && before <= after
  }

  lemma StepOneSteps<P, H>(g: Game<P, H>, settings: Settings, m: Machine<P, H>, local: bool)
    ensures var (m1, outcome) := StepOne(g, settings, m, local); outcome.Failed? || OneMore(m.history, m1.history)
  {
  }

  lemma TurnsStep<P, H>(g: Game<P, H>, settings: Settings, m: Machine<P, H>, secondRuns: bool, input: seq<bv8>)
    ensures TakeDueHash(g, m, secondRuns).0.history == m.history
    ensures var (m1, outcome) := LocalTurn(g, settings, m, input, false);
            outcome.Failed? || OneMore(m.history, m1.history)
    ensures var (m1, outcome) := PartnerTurn(g, settings, m);
            outcome.Failed? || outcome.Stalled? || OneMore(m.history, m1.history)
  {
    hide StepOne;
    var m0 := PrepareLocal(g, settings, m, input);
    assert m0.history == m.history && PreparePartner(g, settings, m).0.history == m.history;
    StepOneSteps(g, settings, m0, true);
    StepOneSteps(g, settings, m, true);
    StepOneSteps(g, settings, PreparePartner(g, settings, m).0, false);
    StepOneSteps(g, settings, m, false);
  }

  /** A pass that neither stalls nor fails, of a console that is due, takes exactly one pair step. */
  lemma RunningMeansStepping<P, H>(g: Game<P, H>, settings: Settings, m: Machine<P, H>, input: seq<bv8>)
    ensures var (m1, outcome) := Iterate(g, settings, m, input, false);
      outcome.Failed? || outcome.Stalled? || OneMore(m.history, m1.history)
  {
    hide TakeDueHash, LocalTurn, PartnerTurn, OneMore;
    if SecondRunsNext(g, m.pair).Some? {
      var secondRuns := SecondRunsNext(g, m.pair).value;
      TurnsStep(g, settings, m, secondRuns, input);
      TurnsStep(g, settings, TakeDueHash(g, m, secondRuns).0, secondRuns, input);
    }
  }

  lemma FailingIsRecorded<P, H>(g: Game<P, H>, settings: Settings, m: Machine<P, H>, input: seq<bv8>)
    ensures var (m1, outcome) := Iterate(g, settings, m, input, false);
      outcome.Failed? ==> m1.failure == Some(outcome.failure)
  {
    hide PreparePartner, PrepareLocal, NoteComputedHash, Stepped;
  }

  /** This machine's next pass takes a pair step, unless a console itself gives up. */
  ghost predicate CanStep<P, H>(g: Game<P, H>, settings: Settings, m: Machine<P, H>, input: seq<bv8>)
  {
    var (m1, outcome) := Iterate(g, settings, m, input, false);
    OneMore(m.history, m1.history) || outcome == Failed(Emulator)
  }

  /** While both machines are linked, some message is on its way or some machine can step. */
  lemma SomebodySteps<P(!new), H(!new)>(g: Game<P, H>, cable: Cable, pair: P, s: Global<P, H>, lead1: nat, lead2: nat)
    requires Reachable(g, cable, pair, s) && Skew(g, pair, lead1, lead2) && FitsInbox(cable.delay, lead1, lead2)
    requires forall who :: s.Of(who).failure.None?
    ensures (exists who :: !AllArrived(s, who)) || exists who :: forall input ::
            CanStep(g, cable.For(who), s.Of(who), input)
  {
    hide Reachable, Skew, FitsInbox, Iterate, OneMore, AllArrived;
    if forall who :: AllArrived(s, who) {
      var who := |s.first.history| <= |s.second.history|;
      forall input ensures CanStep(g, cable.For(who), s.Of(who), input) {
        TheOneBehindNeverWaits(g, cable, pair, s, who, input, false, lead1, lead2);
        RunningMeansStepping(g, cable.For(who), s.Of(who), input);
        FailingIsRecorded(g, cable.For(who), s.Of(who), input);
        ReachableNext(g, cable, pair, s, Run(who, input, false));
        NoFalseAlarm(g, cable, pair, Next(g, cable, s, Run(who, input, false)), who);
      }
    }
  }
}
