/**
  Two machines and the network between them, and what holds in every state they can reach.
 */
module LinkRun {
  import opened Wrappers
  import opened LinkGame
  import opened LinkMachine

  /** What both machines agreed on before the cable went in. */
  datatype Cable = Cable(delay: nat, firstInput: seq<bv8>, secondInput: seq<bv8>) {
    function Input(who: bool): seq<bv8> { if who then firstInput else secondInput }

    function For(who: bool): Settings { Settings(delay, who, Input(who), Input(!who)) }
  }

  /** The machine of each player, and which of the other's messages have reached it. Messages in
      flight are those sent and not delivered; any of them may arrive next, and again later. */
  datatype Global<P, H> = Global(first: Machine<P, H>, second: Machine<P, H>, toFirst: set<nat>, toSecond: set<nat>) {
    function Of(who: bool): Machine<P, H> { if who then first else second }
    function Delivered(who: bool): set<nat> { if who then toFirst else toSecond }

    function With(who: bool, m: Machine<P, H>): Global<P, H> { if who then this.(first := m) else this.(second := m) }

    function Arrived(who: bool, index: nat): Global<P, H>
    {
      if who then this.(toFirst := toFirst + {index}) else this.(toSecond := toSecond + {index})
    }
  }

  datatype Action =
    | Run(who: bool, input: seq<bv8>, idle: bool)   // one pass of the loop, with the input held now
    | User(who: bool, event: Event)                 // a memory write or a reset asked for by the player
    | Deliver(who: bool, index: nat)                // a message of the other machine arrives
    | End(who: bool)                                // the other player is known to be gone
    | GiveUp(who: bool)                             // the loop's step budget ran out

  function Next<P, H(==)>(g: Game<P, H>, cable: Cable, s: Global<P, H>, action: Action): Global<P, H>
  {
    match action
    case Run(who, input, idle) =>
      if s.Of(who).failure.Some? then s else s.With(who, Iterate(g, cable.For(who), s.Of(who), input, idle).0)
    case User(who, event) =>
      if event.WriteMemory? || event.ResetConsole? then s.With(who, Ask(s.Of(who), event)) else s
    case Deliver(who, index) =>
      if index >= |s.Of(!who).outbox| then s
      else
        var (frame, linkFrame) := s.Of(!who).outbox[index];
        var m := s.Of(who);
        s.With(who, m.(inbox := Push(m.inbox, frame, linkFrame))).Arrived(who, index)
    case End(who) => s.With(who, s.Of(who).(inbox := s.Of(who).inbox.(ended := true)))
    case GiveUp(who) => if s.Of(who).failure.Some? then s else s.With(who, s.Of(who).(failure := Some(Emulator)))
  }

  ghost predicate Writes(events: seq<Event>) { forall i :: 0 <= i < |events| ==> events[i].WriteMemory? }

  function Init<P, H>(cable: Cable, pair: P, heldFirst: seq<Event>, heldSecond: seq<Event>): Global<P, H>
  {
    Global(BeginLink(cable.For(true), pair, heldFirst), BeginLink(cable.For(false), pair, heldSecond), {}, {})
  }

  function RunAll<P, H(==)>(g: Game<P, H>, cable: Cable, s: Global<P, H>, actions: seq<Action>): Global<P, H>
    decreases |actions|
  {
    if actions == [] then s
    else Next(g, cable, RunAll(g, cable, s, actions[..|actions| - 1]), actions[|actions| - 1])
  }

  // ---- What each machine has committed to ------------------------------------------------------

  function Events<H>(outbox: seq<(nat, LinkFrame<H>)>): seq<Batch>
  {
    seq(|outbox|, i requires 0 <= i < |outbox| => outbox[i].1.events)
  }

  function LogOf<H>(cable: Cable, who: bool, outbox: seq<(nat, LinkFrame<H>)>): seq<Batch>
  {
    seq(cable.delay, _ => [ChangeInput(cable.Input(who))]) + Events(outbox)
  }

  function LogsOf<P, H>(cable: Cable, s: Global<P, H>): Logs
  {
    Logs(LogOf(cable, true, s.first.outbox), LogOf(cable, false, s.second.outbox))
  }

  /** Resets, then writes. */
  ghost predicate Scheduled(batch: Batch)
  {
    && (forall i :: 0 <= i < |batch| ==> batch[i].ResetConsole? || batch[i].WriteMemory?)
    && (forall i, j :: 0 <= i < j < |batch| && batch[j].ResetConsole? ==> batch[i].ResetConsole?)
  }

  /** Resets, then writes, then exactly one input. */
  ghost predicate Complete(batch: Batch)
  {
    batch != [] && batch[|batch| - 1].ChangeInput? && Scheduled(batch[..|batch| - 1])
  }

  function Lowest<P, H>(m: Machine<P, H>): nat { m.frame + if m.framePrepared then 1 else 0 }

  /** The schedule: what is queued for a frame already sent is what was sent, nothing is missing
      between the frame about to run and the next one to send, and every sent batch is complete. */
  ghost predicate ScheduleInv<P, H>(delay: nat, log: seq<Batch>, m: Machine<P, H>)
  {
    && m.nextSendFrame == m.frame + delay + (if m.framePrepared then 1 else 0)
    && |log| == m.nextSendFrame == delay + |m.outbox|
    && (forall i :: 0 <= i < |m.outbox| ==> m.outbox[i].0 == delay + i)
    && (forall f :: f in m.queue ==> Lowest(m) <= f <= m.nextSendFrame)
    && (forall f :: Lowest(m) <= f < m.nextSendFrame ==> f in m.queue && m.queue[f] == log[f])
    && Scheduled(Queued(m.queue, m.nextSendFrame)) && Writes(m.waiting)
    && (forall f :: 0 <= f < |log| ==> Complete(log[f]))
  }

  function Prepared<P, H>(m: Machine<P, H>, local: bool): bool { if local then m.framePrepared else m.partnerPrepared }

  /** Where the machine's steps lead in the common sequence. */
  ghost predicate OnTrack<P, H>(g: Game<P, H>, logs: Logs, pair: P, who: bool, m: Machine<P, H>)
  {
    && var at := CommonSequence(g, logs, pair, |m.history|);
    && at.Some? && at.value.1 == m.history
    && var c := at.value.0;
    && c.Frame(who) == m.frame && c.Frame(!who) == m.partnerFrame && m.firstFrames == c.frame1
    && (m.failure.None? ==> MatchesCursor(g, logs, who, m, c))
  }

  /** The machine's pair is the cursor's, except that the console whose turn it is may already
      have been given its frame's events. */
  ghost predicate MatchesCursor<P, H>(g: Game<P, H>, logs: Logs, who: bool, m: Machine<P, H>, c: Cursor<P>)
  {
    && (m.hashDueAt.Some? ==> m.hashDueAt.value == c.frame1 && !c.ready1 && c.frame1 > 0)
    && match m.begun
       case None => m.pair == c.pair && c.Ready(who) == m.framePrepared && c.Ready(!who) == m.partnerPrepared
       case Some(batch) =>
         && SecondRunsNext(g, c.pair).Some?
         && var turn := !SecondRunsNext(g, c.pair).value;
         && !c.Ready(turn) && Prepared(m, turn == who) && !g.midFrame(c.pair, turn)
         && c.Ready(!turn) == Prepared(m, turn != who)
         && c.Frame(turn) < |logs.Of(turn)| && batch == logs.Of(turn)[c.Frame(turn)]
         && m.pair == ApplyBatch(g, c.pair, turn, batch)
         && (turn ==> m.hashDueAt.None?)
  }

  // ---- Pair hashes -----------------------------------------------------------------------------

  /** The hash of the pair at the one point of the common sequence where the first console is
      about to begin frame `frame`. */
  ghost predicate GenuineAt<P, H>(g: Game<P, H>, logs: Logs, pair: P, n: nat, frame: nat, hash: H)
  {
    var at := CommonSequence(g, logs, pair, n);
    && at.Some?
    && at.value.0.frame1 == frame && !at.value.0.ready1
    && SecondRunsNext(g, at.value.0.pair) == Some(false)
    && hash == g.pairHash(at.value.0.pair)
  }

  ghost predicate Genuine<P, H>(g: Game<P, H>, logs: Logs, pair: P, entry: (nat, H))
  {
    exists n: nat :: GenuineAt(g, logs, pair, n, entry.0, entry.1)
  }

  ghost predicate AllGenuine<P, H>(g: Game<P, H>, logs: Logs, pair: P, hashes: seq<(nat, H)>)
  {
    forall i :: 0 <= i < |hashes| ==> Genuine(g, logs, pair, hashes[i])
  }

  ghost predicate SentGenuine<P, H>(g: Game<P, H>, logs: Logs, pair: P, sent: seq<(nat, LinkFrame<H>)>)
  {
    forall i :: 0 <= i < |sent| && sent[i].1.pairHash.Some? ==> Genuine(g, logs, pair, sent[i].1.pairHash.value)
  }

  ghost predicate HashInv<P, H>(g: Game<P, H>, logs: Logs, pair: P, m: Machine<P, H>)
  {
    && AllGenuine(g, logs, pair, m.computedHashes)
    && AllGenuine(g, logs, pair, m.receivedHashes)
    && (m.pendingHash.Some? ==> Genuine(g, logs, pair, m.pendingHash.value))
    && SentGenuine(g, logs, pair, m.outbox)
    && (m.failure.Some? ==> !m.failure.value.PairHashMismatch?)
  }

  /** What arrived is what the other machine sent. */
  ghost predicate InboxInv<P, H>(cable: Cable, m: Machine<P, H>, sent: seq<(nat, LinkFrame<H>)>)
  {
    forall f :: f in m.inbox.frames ==>
           cable.delay <= f < cable.delay + |sent| && m.inbox.frames[f] == sent[f - cable.delay].1
  }

  ghost predicate MachineInv<P, H>(g: Game<P, H>, cable: Cable, logs: Logs, pair: P, who: bool, m: Machine<P, H>)
  {
    && logs.Of(who) == LogOf(cable, who, m.outbox)
    && ScheduleInv(cable.delay, logs.Of(who), m)
    && OnTrack(g, logs, pair, who, m)
    && HashInv(g, logs, pair, m)
  }

  ghost predicate Inv<P, H>(g: Game<P, H>, cable: Cable, pair: P, s: Global<P, H>)
  {
    var logs := LogsOf(cable, s);
    forall who :: MachineInv(g, cable, logs, pair, who, s.Of(who)) && InboxInv(cable, s.Of(who), s.Of(!who).outbox)
  }

  /** A proper cable: at least one frame of delay, both consoles at a frame boundary. */
  ghost predicate Plugged<P(!new), H>(g: Game<P, H>, cable: Cable, pair: P)
  {
    AtBoundary(g, pair) && cable.delay >= 1
  }

  // ---- Hash lemmas -----------------------------------------------------------------------------

  /** Once the first console has begun a frame it stays begun until the frame is completed. */
  lemma {:induction false} BegunStaysBegun<P, H>(g: Game<P, H>, logs: Logs, pair: P, m: nat, n: nat)
    requires m <= n && CommonSequence(g, logs, pair, n).Some?
    ensures CommonSequence(g, logs, pair, m).Some?
    ensures var (c, d) := (CommonSequence(g, logs, pair, m).value.0, CommonSequence(g, logs, pair, n).value.0);
      c.frame1 < d.frame1 || (c.frame1 == d.frame1 && (c.ready1 ==> d.ready1))
    decreases n
  {
    if m < n { BegunStaysBegun(g, logs, pair, m, n - 1); }
  }

  lemma GenuinePointsDiffer<P(!new), H>(g: Game<P, H>, logs: Logs, pair: P, m: nat, n: nat, x: (nat, H), y: (nat, H))
    requires AtBoundary(g, pair) && m < n && GenuineAt(g, logs, pair, m, x.0, x.1)
             && GenuineAt(g, logs, pair, n, y.0, y.1)
    ensures x.0 != y.0
  {
    BegunStaysBegun(g, logs, pair, m + 1, n);
    UnpreparedIsAtBoundary(g, logs, pair, m);
    var c := CommonSequence(g, logs, pair, m).value.0;
    var d := CommonSequence(g, logs, pair, m + 1).value.0;
    assert Advance(g, logs, c).Some? && Advance(g, logs, c).value.0 == d;
    assert c.frame1 < d.frame1 || d.ready1;
  }

  lemma GenuineIsUnique<P(!new), H>(g: Game<P, H>, logs: Logs, pair: P, x: (nat, H), y: (nat, H))
    requires AtBoundary(g, pair) && Genuine(g, logs, pair, x) && Genuine(g, logs, pair, y) && x.0 == y.0
    ensures x == y
  {
    var m: nat :| GenuineAt(g, logs, pair, m, x.0, x.1);
    var n: nat :| GenuineAt(g, logs, pair, n, y.0, y.1);
    if m < n { GenuinePointsDiffer(g, logs, pair, m, n, x, y); }
    if n < m { GenuinePointsDiffer(g, logs, pair, n, m, y, x); }
  }

  lemma GenuineExtends<P, H>(g: Game<P, H>, older: Logs, newer: Logs, pair: P, entry: (nat, H))
    requires newer.Extends(older) && Genuine(g, older, pair, entry)
    ensures Genuine(g, newer, pair, entry)
  {
    var n: nat :| GenuineAt(g, older, pair, n, entry.0, entry.1);
    CommonSequenceExtends(g, older, newer, pair, n);
    assert GenuineAt(g, newer, pair, n, entry.0, entry.1);
  }

  lemma {:induction false} LookupIsEntry<H>(hashes: seq<(nat, H)>, frame: nat)
    ensures Lookup(hashes, frame).Some? ==> (frame, Lookup(hashes, frame).value) in hashes
  {
    if hashes != [] && hashes[0].0 != frame { LookupIsEntry(hashes[1..], frame); }
  }

  lemma {:induction false} UnmatchedAreReceived<H>(received: seq<(nat, H)>, computed: seq<(nat, H)>)
    ensures forall x :: x in Unmatched(received, computed) ==> x in received
  {
    if received != [] { UnmatchedAreReceived(received[1..], computed); }
  }

  lemma {:induction false} GenuineNeverMismatch<P(!new), H>(g: Game<P, H>, logs: Logs, pair: P,
      received: seq<(nat, H)>, computed: seq<(nat, H)>)
    requires AtBoundary(g, pair) && AllGenuine(g, logs, pair, received) && AllGenuine(g, logs, pair, computed)
    ensures FirstMismatch(received, computed).None?
  {
    if received != [] {
      var frame := received[0].0;
      LookupIsEntry(computed, frame);
      if Lookup(computed, frame).Some? {
        assert Genuine(g, logs, pair, received[0]);
        GenuineIsUnique(g, logs, pair, received[0], (frame, Lookup(computed, frame).value));
      }
      GenuineNeverMismatch(g, logs, pair, received[1..], computed);
    }
  }

  lemma GenuineMatch<P(!new), H>(g: Game<P, H>, logs: Logs, pair: P, m: Machine<P, H>)
    requires AtBoundary(g, pair) && AllGenuine(g, logs, pair, m.receivedHashes)
             && AllGenuine(g, logs, pair, m.computedHashes)
    ensures MatchHashes(m).1.None? && AllGenuine(g, logs, pair, MatchHashes(m).0.receivedHashes)
  {
    GenuineNeverMismatch(g, logs, pair, m.receivedHashes, m.computedHashes);
    UnmatchedAreReceived(m.receivedHashes, m.computedHashes);
    var kept := MatchHashes(m).0.receivedHashes;
    forall i | 0 <= i < |kept| ensures Genuine(g, logs, pair, kept[i]) {
      assert kept[i] in Unmatched(m.receivedHashes, m.computedHashes);
    }
  }

  // ---- Preservation, operation by operation ----------------------------------------------------

  lemma LogGrows<H>(cable: Cable, who: bool, outbox: seq<(nat, LinkFrame<H>)>, message: (nat, LinkFrame<H>))
    ensures LogOf(cable, who, outbox + [message]) == LogOf(cable, who, outbox) + [message.1.events]
  {
  }

  /** The other machine sending a frame leaves everything this machine knows true. */
  lemma PeerSends<P, H>(g: Game<P, H>, cable: Cable, older: Logs, newer: Logs, pair: P, who: bool, m: Machine<P, H>)
    requires MachineInv(g, cable, older, pair, who, m) && newer.Extends(older) && newer.Of(who) == older.Of(who)
    ensures MachineInv(g, cable, newer, pair, who, m)
  {
    CommonSequenceExtends(g, older, newer, pair, |m.history|);
    forall x | Genuine(g, older, pair, x) ensures Genuine(g, newer, pair,
            x) { GenuineExtends(g, older, newer, pair, x); }
  }

  lemma TakeDueHashInv<P(!new), H>(g: Game<P, H>, cable: Cable, logs: Logs, pair: P, who: bool, m: Machine<P, H>,
      secondRuns: bool)
    requires AtBoundary(g, pair) && MachineInv(g, cable, logs, pair, who, m) && m.failure.None?
    requires SecondRunsNext(g, m.pair) == Some(secondRuns)
    ensures var (m1, failure) := TakeDueHash(g, m, secondRuns);
      && failure.None? && MachineInv(g, cable, logs, pair, who, m1) && m1.failure.None?
      && (!secondRuns ==> m1.hashDueAt.None?)
      && m1.inbox == m.inbox && m1.outbox == m.outbox && m1.pair == m.pair
  {
    var c := CommonSequence(g, logs, pair, |m.history|).value.0;
    if !secondRuns && m.hashDueAt.Some? {
      if m.begun.Some? {
        ApplyBatchKeepsTurn(g, c.pair, !SecondRunsNext(g, c.pair).value, m.begun.value);
      }
      var entry := (m.hashDueAt.value, g.pairHash(m.pair));
      assert GenuineAt(g, logs, pair, |m.history|, entry.0, entry.1);
      var noted := m.(hashDueAt := None, pendingHash := Some(entry),
                      computedHashes := Newest(m.computedHashes + [entry]));
      assert AllGenuine(g, logs, pair, m.computedHashes + [entry]);
      GenuineMatch(g, logs, pair, noted);
    }
  }

  lemma PlacedKeepsScheduled(batch: Batch, event: Event)
    requires Scheduled(batch) && (event.WriteMemory? || event.ResetConsole?)
    ensures Scheduled(Placed(batch, event))
  {
  }

  lemma ScheduleKeepsInv<P, H>(g: Game<P, H>, cable: Cable, logs: Logs, pair: P, who: bool, m: Machine<P, H>,
      event: Event)
    requires MachineInv(g, cable, logs, pair, who, m) && (event.WriteMemory? || event.ResetConsole?)
    ensures MachineInv(g, cable, logs, pair, who, Schedule(m, event))
  {
    PlacedKeepsScheduled(Queued(m.queue, m.nextSendFrame), event);
  }

  lemma PrepareLocalSchedule<P, H>(g: Game<P, H>, settings: Settings, log: seq<Batch>, m: Machine<P, H>,
      input: seq<bv8>)
    requires ScheduleInv(settings.delay, log, m) && !m.framePrepared && settings.delay >= 1
    ensures m.frame in m.queue && m.queue[m.frame] == log[m.frame]
    ensures var sent := Queued(m.queue, m.nextSendFrame) + [ChangeInput(input)];
      ScheduleInv(settings.delay, log + [sent], PrepareLocal(g, settings, m, input))
  {
    hide ApplyBatch, Complete, Scheduled;
    var sent := Queued(m.queue, m.nextSendFrame) + [ChangeInput(input)];
    FreshIsComplete(Queued(m.queue, m.nextSendFrame), input);
    var queue := m.queue[m.nextSendFrame := sent] - {m.frame};
    assert m.nextSendFrame + 1 !in queue;
    var log1 := log + [sent];
    forall f | m.frame + 1 <= f < m.nextSendFrame + 1 ensures f in queue && queue[f] == log1[f] {
      if f < m.nextSendFrame { assert f in m.queue && m.queue[f] == log[f]; }
    }
    NothingIsScheduled();
  }

  lemma FreshIsComplete(batch: Batch, input: seq<bv8>)
    requires Scheduled(batch)
    ensures Complete(batch + [ChangeInput(input)])
  {
    assert (batch + [ChangeInput(input)])[..|batch|] == batch;
  }

  lemma NothingIsScheduled()
    ensures Scheduled([])
  {
  }

  lemma BegunKeepsTurn<P(!new), H>(g: Game<P, H>, logs: Logs, who: bool, m: Machine<P, H>, c: Cursor<P>)
    requires Lawful(g) && MatchesCursor(g, logs, who, m, c) && m.failure.None?
    ensures SecondRunsNext(g, m.pair) == SecondRunsNext(g, c.pair)
    ensures forall w :: g.midFrame(m.pair, w) == g.midFrame(c.pair, w)
  {
    if m.begun.Some? {
      ApplyBatchKeepsTurn(g, c.pair, !SecondRunsNext(g, c.pair).value, m.begun.value);
    }
  }

  /** Giving the console whose turn it is its frame's events, out of the log. */
  lemma BeginMatches<P(!new), H>(g: Game<P, H>, logs: Logs, who: bool, m: Machine<P, H>, m1: Machine<P, H>,
      c: Cursor<P>, turn: bool)
    requires Lawful(g) && MatchesCursor(g, logs, who, m, c) && m.failure.None? && !g.midFrame(m.pair, turn)
    requires SecondRunsNext(g, m.pair) == Some(!turn) && !Prepared(m, turn == who)
    requires c.Frame(turn) < |logs.Of(turn)| && m1.begun == Some(logs.Of(turn)[c.Frame(turn)])
    requires m1.pair == ApplyBatch(g, m.pair, turn, m1.begun.value) && m1.hashDueAt == m.hashDueAt
             && (turn ==> m.hashDueAt.None?)
    requires Prepared(m1, turn == who) && Prepared(m1, turn != who) == Prepared(m, turn != who)
    ensures MatchesCursor(g, logs, who, m1, c) && SecondRunsNext(g, m1.pair) == SecondRunsNext(g, m.pair)
  {
    BegunKeepsTurn(g, logs, who, m, c);
    ApplyBatchKeepsTurn(g, c.pair, turn, m1.begun.value);
  }

  lemma MatchesCursorExtends<P, H>(g: Game<P, H>, older: Logs, newer: Logs, who: bool, m: Machine<P, H>, c: Cursor<P>)
    requires newer.Extends(older) && MatchesCursor(g, older, who, m, c)
    ensures MatchesCursor(g, newer, who, m, c)
  {
  }

  lemma HashInvExtends<P, H>(g: Game<P, H>, older: Logs, newer: Logs, pair: P, m: Machine<P, H>)
    requires newer.Extends(older) && HashInv(g, older, pair, m)
    ensures HashInv(g, newer, pair, m)
  {
    forall x | Genuine(g, older, pair, x) ensures Genuine(g, newer, pair,
            x) { GenuineExtends(g, older, newer, pair, x); }
  }

  /** Preparing a local frame sends the next frame of the log and applies the log's current one. */
  lemma PrepareLocalInv<P(!new), H>(g: Game<P, H>, cable: Cable, older: Logs, newer: Logs, pair: P, who: bool,
      m: Machine<P, H>, input: seq<bv8>)
    requires Plugged(g, cable, pair) && MachineInv(g, cable, older, pair, who, m) && m.failure.None?
    requires SecondRunsNext(g, m.pair) == Some(!who) && !m.framePrepared && (who ==> m.hashDueAt.None?)
    requires var m1 := PrepareLocal(g, cable.For(who), m, input);
      newer.Of(who) == LogOf(cable, who, m1.outbox) && newer.Of(!who) == older.Of(!who)
    ensures newer.Extends(older)
    ensures var m1 := PrepareLocal(g, cable.For(who), m, input);
      MachineInv(g, cable, newer, pair, who, m1) && SecondRunsNext(g, m1.pair) == Some(!who)
  {
    var m1 := PrepareLocal(g, cable.For(who), m, input);
    PrepareLocalSchedule(g, cable.For(who), older.Of(who), m, input);
    LogGrows(cable, who, m.outbox, m1.outbox[|m.outbox|]);
    assert newer.Extends(older) by { assert newer.Of(true) == newer.first && newer.Of(false) == newer.second; }
    CommonSequenceExtends(g, older, newer, pair, |m.history|);
    var c := CommonSequence(g, older, pair, |m.history|).value.0;
    MatchesCursorExtends(g, older, newer, who, m, c);
    UnpreparedMachineAtBoundary(g, cable, older, pair, who, m, who);
    BeginMatches(g, newer, who, m, m1, c, who);
    HashInvExtends(g, older, newer, pair, m);
  }

  lemma NoteReceivedInv<P(!new), H>(g: Game<P, H>, cable: Cable, logs: Logs, pair: P, who: bool, m: Machine<P, H>,
      pairHash: Option<(nat, H)>)
    requires AtBoundary(g, pair) && MachineInv(g, cable, logs, pair, who, m)
    requires pairHash.Some? ==> Genuine(g, logs, pair, pairHash.value)
    ensures var (m1, failure) := NoteReceivedHash(m, pairHash);
      failure.None? && m1 == m.(receivedHashes := m1.receivedHashes) && MachineInv(g, cable, logs, pair, who, m1)
  {
    if pairHash.Some? {
      var received := m.receivedHashes + [pairHash.value];
      assert AllGenuine(g, logs, pair, received);
      GenuineMatch(g, logs, pair, m.(receivedHashes := received));
    }
  }

  lemma BeginPartnerInv<P(!new), H>(g: Game<P, H>, cable: Cable, logs: Logs, pair: P, who: bool, m: Machine<P, H>,
      m0: Machine<P, H>)
    requires AtBoundary(g, pair) && MachineInv(g, cable, logs, pair, who, m) && m.failure.None?
    requires SecondRunsNext(g, m.pair) == Some(who) && !m.partnerPrepared && (!who ==> m.hashDueAt.None?)
    requires m.partnerFrame < |logs.Of(!who)| && m0.begun == Some(logs.Of(!who)[m.partnerFrame])
    requires m0 == m.(inbox := m0.inbox, partnerPrepared := true, begun := m0.begun,
                      pair := ApplyBatch(g, m.pair, !who, m0.begun.value))
    ensures MachineInv(g, cable, logs, pair, who, m0) && SecondRunsNext(g, m0.pair) == Some(who)
  {
    UnpreparedMachineAtBoundary(g, cable, logs, pair, who, m, !who);
    BeginMatches(g, logs, who, m, m0, CommonSequence(g, logs, pair, |m.history|).value.0, !who);
  }

  lemma PartnerEventsAreLogged<P, H>(g: Game<P, H>, cable: Cable, logs: Logs, pair: P, who: bool, m: Machine<P, H>,
      sent: seq<(nat, LinkFrame<H>)>)
    requires cable.delay >= 1 && logs.Of(!who) == LogOf(cable, !who, sent) && InboxInv(cable, m, sent)
    requires SentGenuine(g, logs, pair, sent)
    requires m.partnerFrame < cable.delay || m.partnerFrame in m.inbox.frames
    ensures var (inbox, linkFrame) := PartnerEvents(cable.For(who), m);
      && m.partnerFrame < |logs.Of(!who)| && linkFrame.events == logs.Of(!who)[m.partnerFrame]
      && (linkFrame.pairHash.Some? ==> Genuine(g, logs, pair, linkFrame.pairHash.value))
  {
  }

  /** Preparing a partner frame applies the log's events for it, or waits. */
  lemma PreparePartnerInv<P(!new), H>(g: Game<P, H>, cable: Cable, logs: Logs, pair: P, who: bool, m: Machine<P, H>,
      sent: seq<(nat, LinkFrame<H>)>)
    requires Plugged(g, cable, pair) && MachineInv(g, cable, logs, pair, who, m) && m.failure.None?
    requires logs.Of(!who) == LogOf(cable, !who, sent) && InboxInv(cable, m, sent)
    requires SentGenuine(g, logs, pair, sent)
    requires SecondRunsNext(g, m.pair) == Some(who) && !m.partnerPrepared && (!who ==> m.hashDueAt.None?)
    ensures var (m1, ready) := PreparePartner(g, cable.For(who), m);
      && MachineInv(g, cable, logs, pair, who, m1) && m1.failure.None? && InboxInv(cable, m1, sent)
      && !ready.Mismatch? && (!ready.Ready? ==> m1 == m)
      && (ready.Ready? ==> m1.partnerPrepared && m1.hashDueAt == m.hashDueAt && SecondRunsNext(g, m1.pair) == Some(who))
  {
    hide MachineInv, SentGenuine, Genuine, ApplyBatch, SecondRunsNext, LogOf;
    if m.partnerFrame < cable.delay || m.partnerFrame in m.inbox.frames {
      var (inbox, linkFrame) := PartnerEvents(cable.For(who), m);
      PartnerEventsAreLogged(g, cable, logs, pair, who, m, sent);
      var m0 := m.(inbox := inbox, partnerPrepared := true, begun := Some(linkFrame.events),
                   pair := ApplyBatch(g, m.pair, !who, linkFrame.events));
      BeginPartnerInv(g, cable, logs, pair, who, m, m0);
      NoteReceivedInv(g, cable, logs, pair, who, m0, linkFrame.pairHash);
    }
  }

  /** What a partner frame that can be prepared is prepared from. */
  function PartnerEvents<P, H>(settings: Settings, m: Machine<P, H>): (Inbox<H>, LinkFrame<H>)
    requires m.partnerFrame < settings.delay || m.partnerFrame in m.inbox.frames
  {
    if m.partnerFrame < settings.delay then (m.inbox, LinkFrame([ChangeInput(settings.partnerInput)], None))
    else (Take(m.inbox, m.partnerFrame).0, m.inbox.frames[m.partnerFrame])
  }

  /** The cursor's own step is the machine's. */
  lemma StepAdvances<P(!new), H>(g: Game<P, H>, logs: Logs, pair: P, who: bool, m: Machine<P, H>, turn: bool)
    requires AtBoundary(g, pair) && OnTrack(g, logs, pair, who, m) && m.failure.None?
    requires SecondRunsNext(g, m.pair) == Some(!turn) && Prepared(m, turn == who) && g.step(m.pair, turn).Some?
    ensures var c := CommonSequence(g, logs, pair, |m.history|).value.0;
      var (q, frames) := g.step(m.pair, turn).value;
      Advance(g, logs, c)
      == Some((c.Moved(turn, q, c.Frame(turn) + frames, frames == 0), StepRecord(turn, m.begun, frames)))
  {
    var c := CommonSequence(g, logs, pair, |m.history|).value.0;
    UnpreparedIsAtBoundary(g, logs, pair, |m.history|);
    BegunKeepsTurn(g, logs, who, m, c);
  }

  lemma StepSchedule<P, H>(settings: Settings, log: seq<Batch>, m: Machine<P, H>, local: bool, pair: P, frames: nat)
    requires ScheduleInv(settings.delay, log, m) && Prepared(m, local) && frames <= 1
    ensures ScheduleInv(settings.delay, log, Stepped(m, settings, local, pair, frames))
  {
    assert Lowest(Stepped(m, settings, local, pair, frames)) == Lowest(m);
  }

  lemma StepTrack<P(!new), H>(g: Game<P, H>, settings: Settings, logs: Logs, pair: P, who: bool, m: Machine<P, H>,
      local: bool)
    requires AtBoundary(g, pair) && OnTrack(g, logs, pair, who, m) && m.failure.None? && settings.localIsFirst == who
    requires SecondRunsNext(g, m.pair) == Some(who != local) && Prepared(m, local)
    requires who == local ==> m.hashDueAt.None?
    requires g.step(m.pair, who == local).Some?
    ensures var (q, frames) := g.step(m.pair, who == local).value;
      OnTrack(g, logs, pair, who, Stepped(m, settings, local, q, frames))
  {
    hide CommonSequence, Advance, MatchesCursor, Lawful, SecondRunsNext;
    var turn := who == local;
    StepAdvances(g, logs, pair, who, m, turn);
    var c := CommonSequence(g, logs, pair, |m.history|).value.0;
    var (q, frames) := g.step(m.pair, turn).value;
    OneFrameAtMost(g, m.pair, turn);
    var m1 := Stepped(m, settings, local, q, frames);
    var d := c.Moved(turn, q, c.Frame(turn) + frames, frames == 0);
    CommonSequenceNext(g, logs, pair, m.history, c);
    assert Executes(g, logs, pair, m1.history, d);
    StepMatches(g, settings, logs, who, m, local, c, q, frames);
  }

  lemma OneFrameAtMost<P(!new), H>(g: Game<P, H>, pair: P, who: bool)
    requires Lawful(g) && g.step(pair, who).Some?
    ensures g.step(pair, who).value.1 <= 1
  {
  }

  lemma StepMatches<P(!new), H>(g: Game<P, H>, settings: Settings, logs: Logs, who: bool, m: Machine<P, H>,
      local: bool, c: Cursor<P>, q: P, frames: nat)
    requires Lawful(g) && MatchesCursor(g, logs, who, m, c) && settings.localIsFirst == who && m.failure.None?
    requires SecondRunsNext(g, m.pair) == Some(who != local) && Prepared(m, local)
    requires m.firstFrames == c.frame1 && (who == local ==> m.hashDueAt.None?) && frames <= 1
    ensures var turn := who == local;
      MatchesCursor(g, logs, who, Stepped(m, settings, local, q, frames),
                    c.Moved(turn, q, c.Frame(turn) + frames, frames == 0))
  {
    BegunKeepsTurn(g, logs, who, m, c);
  }

  /** A pair step is the next step of the common sequence. */
  lemma StepInv<P(!new), H>(g: Game<P, H>, cable: Cable, logs: Logs, pair: P, who: bool, m: Machine<P, H>, local: bool)
    requires Plugged(g, cable, pair) && MachineInv(g, cable, logs, pair, who, m) && m.failure.None?
    requires SecondRunsNext(g, m.pair) == Some(who != local) && Prepared(m, local)
    requires who == local ==> m.hashDueAt.None?
    requires g.step(m.pair, who == local).Some?
    ensures var (q, frames) := g.step(m.pair, who == local).value;
      MachineInv(g, cable, logs, pair, who, Stepped(m, cable.For(who), local, q, frames))
  {
    var (q, frames) := g.step(m.pair, who == local).value;
    StepTrack(g, cable.For(who), logs, pair, who, m, local);
    StepSchedule(cable.For(who), logs.Of(who), m, local, q, frames);
  }

  // ---- Preservation, action by action ----------------------------------------------------------

  /** The machine's own turn to begin a frame comes at a frame boundary. */
  lemma UnpreparedMachineAtBoundary<P(!new), H>(g: Game<P, H>, cable: Cable, logs: Logs, pair: P, who: bool,
      m: Machine<P, H>, turn: bool)
    requires AtBoundary(g, pair) && MachineInv(g, cable, logs, pair, who, m) && m.failure.None?
    requires SecondRunsNext(g, m.pair) == Some(!turn) && !Prepared(m, turn == who)
    ensures !g.midFrame(m.pair, turn)
  {
    UnpreparedIsAtBoundary(g, logs, pair, |m.history|);
    BegunKeepsTurn(g, logs, who, m, CommonSequence(g, logs, pair, |m.history|).value.0);
  }

  /** Giving up, or noting a stall, changes nothing else. */
  lemma FlagsKeepInv<P, H>(g: Game<P, H>, cable: Cable, logs: Logs, pair: P, who: bool, m: Machine<P, H>,
      stalled: bool, failure: Option<Failure>)
    requires MachineInv(g, cable, logs, pair, who, m)
    requires failure == m.failure || (failure.Some? && !failure.value.PairHashMismatch?)
    ensures MachineInv(g, cable, logs, pair, who, m.(stalled := stalled, failure := failure))
  {
  }

  /** A prepared console steps, or fails. */
  lemma StepOneInv<P(!new), H>(g: Game<P, H>, cable: Cable, logs: Logs, pair: P, who: bool, m: Machine<P, H>,
      local: bool)
    requires Plugged(g, cable, pair) && MachineInv(g, cable, logs, pair, who, m) && m.failure.None?
             && Prepared(m, local)
    requires SecondRunsNext(g, m.pair) == Some(who != local) && (who == local ==> m.hashDueAt.None?)
    ensures var m1 := StepOne(g, cable.For(who), m, local).0;
      MachineInv(g, cable, logs, pair, who, m1) && m1.outbox == m.outbox && m1.inbox == m.inbox
  {
    hide MachineInv;
    SteppedSendsNothing(m, cable.For(who), local);
    match g.step(m.pair, who == local)
    case None => FlagsKeepInv(g, cable, logs, pair, who, m, m.stalled, Some(Emulator));
    case Some((q, frames)) =>
      StepInv(g, cable, logs, pair, who, m, local);
      FlagsKeepInv(g, cable, logs, pair, who, Stepped(m, cable.For(who), local, q, frames), if local then false
                   else m.stalled, None);
  }

  lemma SteppedSendsNothing<P, H>(m: Machine<P, H>, settings: Settings, local: bool)
    ensures forall q, frames :: var m1 := Stepped(m, settings, local, q, frames);
      m1.outbox == m.outbox && m1.inbox == m.inbox && m1.stalled == m.stalled && m1.failure == m.failure
  {
  }

  lemma NothingSent<P, H>(g: Game<P, H>, cable: Cable, older: Logs, newer: Logs, pair: P, who: bool, m: Machine<P, H>)
    requires MachineInv(g, cable, older, pair, who, m)
    requires newer.Of(!who) == older.Of(!who) && newer.Of(who) == LogOf(cable, who, m.outbox)
    ensures newer == older
  {
    assert newer.Of(true) == newer.first && newer.Of(false) == newer.second;
  }

  lemma LocalTurnInv<P(!new), H>(g: Game<P, H>, cable: Cable, older: Logs, newer: Logs, pair: P, who: bool,
      m: Machine<P, H>, input: seq<bv8>, idle: bool)
    requires Plugged(g, cable, pair) && MachineInv(g, cable, older, pair, who, m) && m.failure.None?
    requires SecondRunsNext(g, m.pair) == Some(!who) && (who ==> m.hashDueAt.None?)
    requires newer.Of(!who) == older.Of(!who)
    requires newer.Of(who) == LogOf(cable, who, LocalTurn(g, cable.For(who), m, input, idle).0.outbox)
    ensures newer.Extends(older)
    ensures var m1 := LocalTurn(g, cable.For(who), m, input, idle).0;
      MachineInv(g, cable, newer, pair, who, m1) && m1.inbox == m.inbox && m.outbox <= m1.outbox
  {
    hide MachineInv, LogOf;
    var m1 := m;
    if !m.framePrepared {
      UnpreparedMachineAtBoundary(g, cable, older, pair, who, m, who);
      m1 := PrepareLocal(g, cable.For(who), m, input);
      assert LocalTurn(g, cable.For(who), m, input, idle).0.outbox == m1.outbox;
      PrepareLocalInv(g, cable, older, newer, pair, who, m, input);
    } else {
      assert LocalTurn(g, cable.For(who), m, input, idle).0.outbox == m1.outbox;
      NothingSent(g, cable, older, newer, pair, who, m);
    }
    if idle {
      FlagsKeepInv(g, cable, newer, pair, who, m1, false, None);
    } else {
      StepOneInv(g, cable, newer, pair, who, m1, true);
    }
  }

  lemma PartnerTurnInv<P(!new), H>(g: Game<P, H>, cable: Cable, logs: Logs, pair: P, who: bool, m: Machine<P, H>,
      sent: seq<(nat, LinkFrame<H>)>)
    requires Plugged(g, cable, pair) && MachineInv(g, cable, logs, pair, who, m) && m.failure.None?
    requires logs.Of(!who) == LogOf(cable, !who, sent) && InboxInv(cable, m, sent)
    requires SentGenuine(g, logs, pair, sent)
    requires SecondRunsNext(g, m.pair) == Some(who) && (!who ==> m.hashDueAt.None?)
    ensures var m1 := PartnerTurn(g, cable.For(who), m).0;
      MachineInv(g, cable, logs, pair, who, m1) && InboxInv(cable, m1, sent) && m1.outbox == m.outbox
  {
    hide MachineInv, LogOf, PreparePartner, StepOne, SentGenuine;
    if m.partnerPrepared {
      StepOneInv(g, cable, logs, pair, who, m, false);
    } else {
      UnpreparedMachineAtBoundary(g, cable, logs, pair, who, m, !who);
      PreparePartnerInv(g, cable, logs, pair, who, m, sent);
      var (m1, ready) := PreparePartner(g, cable.For(who), m);
      PreparePartnerKeepsOutbox(g, cable.For(who), m);
      match ready
      case Ready => StepOneInv(g, cable, logs, pair, who, m1, false);
      case Waiting => FlagsKeepInv(g, cable, logs, pair, who, m1, true, None);
      case Ended => FlagsKeepInv(g, cable, logs, pair, who, m1, m1.stalled, Some(PartnerEnded));
    }
  }

  lemma PreparePartnerKeepsOutbox<P, H>(g: Game<P, H>, settings: Settings, m: Machine<P, H>)
    ensures PreparePartner(g, settings, m).0.outbox == m.outbox
  {
  }

  lemma IterateInv<P(!new), H>(g: Game<P, H>, cable: Cable, older: Logs, newer: Logs, pair: P, who: bool,
      m: Machine<P, H>, sent: seq<(nat, LinkFrame<H>)>, input: seq<bv8>, idle: bool)
    requires Plugged(g, cable, pair) && MachineInv(g, cable, older, pair, who, m) && m.failure.None?
    requires older.Of(!who) == LogOf(cable, !who, sent) && InboxInv(cable, m, sent)
    requires SentGenuine(g, older, pair, sent)
    requires newer.Of(!who) == older.Of(!who)
    requires newer.Of(who) == LogOf(cable, who, Iterate(g, cable.For(who), m, input, idle).0.outbox)
    ensures newer.Extends(older)
    ensures var m1 := Iterate(g, cable.For(who), m, input, idle).0;
      MachineInv(g, cable, newer, pair, who, m1) && InboxInv(cable, m1, sent) && m.outbox <= m1.outbox
  {
    hide MachineInv, LogOf, LocalTurn, PartnerTurn;
    if SecondRunsNext(g, m.pair).Some? {
      var secondRuns := SecondRunsNext(g, m.pair).value;
      TakeDueHashInv(g, cable, older, pair, who, m, secondRuns);
      var m1 := TakeDueHash(g, m, secondRuns).0;
      if secondRuns != who {
        LocalTurnInv(g, cable, older, newer, pair, who, m1, input, idle);
      } else {
        PartnerTurnInv(g, cable, older, pair, who, m1, sent);
        NothingSent(g, cable, older, newer, pair, who, m1);
      }
    } else {
      NothingSent(g, cable, older, newer, pair, who, m);
      FlagsKeepInv(g, cable, older, pair, who, m, m.stalled, Some(Emulator));
    }
  }

  lemma SentAreGenuine<P, H>(g: Game<P, H>, cable: Cable, logs: Logs, pair: P, who: bool, m: Machine<P, H>)
    requires MachineInv(g, cable, logs, pair, who, m)
    ensures SentGenuine(g, logs, pair, m.outbox)
  {
  }

  lemma MoreSentKeepsInbox<P, H>(cable: Cable, m: Machine<P, H>, sent: seq<(nat, LinkFrame<H>)>,
      more: seq<(nat, LinkFrame<H>)>)
    requires InboxInv(cable, m, sent) && sent <= more
    ensures InboxInv(cable, m, more)
  {
  }

  lemma RunKeepsInv<P(!new), H>(g: Game<P, H>, cable: Cable, pair: P, s: Global<P, H>, who: bool, input: seq<bv8>,
      idle: bool)
    requires Plugged(g, cable, pair) && Inv(g, cable, pair, s) && s.Of(who).failure.None?
    ensures var t := Next(g, cable, s, Run(who, input, idle));
      Inv(g, cable, pair, t) && LogsOf(cable, t).Extends(LogsOf(cable, s))
  {
    hide Iterate, InboxInv, LogOf, SentGenuine;
    var t := Next(g, cable, s, Run(who, input, idle));
    var older, newer := LogsOf(cable, s), LogsOf(cable, t);
    assert MachineInv(g, cable, older, pair, who, s.Of(who)) && MachineInv(g, cable, older, pair, !who, s.Of(!who));
    SentAreGenuine(g, cable, older, pair, !who, s.Of(!who));
    hide MachineInv;
    IterateInv(g, cable, older, newer, pair, who, s.Of(who), s.Of(!who).outbox, input, idle);
    PeerSends(g, cable, older, newer, pair, !who, s.Of(!who));
    MoreSentKeepsInbox(cable, s.Of(!who), s.Of(who).outbox, t.Of(who).outbox);
    forall w ensures MachineInv(g, cable, newer, pair, w, t.Of(w)) && InboxInv(cable, t.Of(w), t.Of(!w).outbox) {
      if w != who { assert w == !who; }
    }
  }

  lemma InboxKeepsInv<P, H>(g: Game<P, H>, cable: Cable, logs: Logs, pair: P, who: bool, m: Machine<P, H>,
      inbox: Inbox<H>)
    requires MachineInv(g, cable, logs, pair, who, m)
    ensures MachineInv(g, cable, logs, pair, who, m.(inbox := inbox))
  {
  }

  /** An action that sends nothing and keeps the acting machine's invariant keeps everyone's. */
  lemma QuietKeepsInv<P(!new), H>(g: Game<P, H>, cable: Cable, pair: P, s: Global<P, H>, t: Global<P, H>, who: bool)
    requires Inv(g, cable, pair, s) && t.Of(!who) == s.Of(!who) && t.Of(who).outbox == s.Of(who).outbox
    requires MachineInv(g, cable, LogsOf(cable, s), pair, who, t.Of(who))
             && InboxInv(cable, t.Of(who), s.Of(!who).outbox)
    ensures Inv(g, cable, pair, t) && LogsOf(cable, t) == LogsOf(cable, s)
  {
    assert s.first.outbox == t.first.outbox && s.second.outbox == t.second.outbox by {
      assert s.Of(true) == s.first && s.Of(false) == s.second && t.Of(true) == t.first && t.Of(false) == t.second;
    }
    hide MachineInv, InboxInv, LogOf;
    forall w ensures MachineInv(g, cable, LogsOf(cable, t), pair, w, t.Of(w))
           && InboxInv(cable, t.Of(w), t.Of(!w).outbox) {
      if w != who { assert w == !who; }
    }
  }

  lemma {:induction false} ScheduleAllInv<P, H>(g: Game<P, H>, cable: Cable, logs: Logs, pair: P, who: bool,
      m: Machine<P, H>, events: seq<Event>)
    requires MachineInv(g, cable, logs, pair, who, m) && Writes(events)
    ensures var m1 := ScheduleAll(m, events); MachineInv(g, cable, logs, pair, who, m1) && m1 == m.(queue := m1.queue)
    decreases |events|
  {
    if events != [] {
      ScheduleKeepsInv(g, cable, logs, pair, who, m, events[0]);
      ScheduleAllInv(g, cable, logs, pair, who, Schedule(m, events[0]), events[1..]);
    }
  }

  lemma AskKeepsInv<P, H>(g: Game<P, H>, cable: Cable, logs: Logs, pair: P, who: bool, m: Machine<P, H>, event: Event)
    requires MachineInv(g, cable, logs, pair, who, m) && (event.WriteMemory? || event.ResetConsole?)
    ensures var m1 := Ask(m, event);
            MachineInv(g, cable, logs, pair, who, m1) && m1 == m.(queue := m1.queue, waiting := m1.waiting)
  {
    if event.ResetConsole? {
      ScheduleKeepsInv(g, cable, logs, pair, who, m, event);
    } else {
      WaitingAreWrites(g, cable, logs, pair, who, m);
      ScheduleAllInv(g, cable, logs, pair, who, m.(waiting := []), m.waiting + [event]);
    }
  }

  lemma WaitingAreWrites<P, H>(g: Game<P, H>, cable: Cable, logs: Logs, pair: P, who: bool, m: Machine<P, H>)
    requires MachineInv(g, cable, logs, pair, who, m)
    ensures Writes(m.waiting) && MachineInv(g, cable, logs, pair, who, m.(waiting := []))
  {
  }

  lemma NextKeepsInv<P(!new), H>(g: Game<P, H>, cable: Cable, pair: P, s: Global<P, H>, action: Action)
    requires Plugged(g, cable, pair) && Inv(g, cable, pair, s)
    ensures Inv(g, cable, pair, Next(g, cable, s, action))
    ensures LogsOf(cable, Next(g, cable, s, action)).Extends(LogsOf(cable, s))
  {
    hide MachineInv, LogOf, Iterate;
    var who := action.who;
    var m, logs := s.Of(who), LogsOf(cable, s);
    var t := Next(g, cable, s, action);
    match action
    case Run(_, input, idle) =>
      if m.failure.None? { RunKeepsInv(g, cable, pair, s, who, input, idle); }
    case User(_, event) =>
      if event.WriteMemory? || event.ResetConsole? {
        AskKeepsInv(g, cable, logs, pair, who, m, event);
        QuietKeepsInv(g, cable, pair, s, t, who);
      }
    case Deliver(_, index) =>
      if index < |s.Of(!who).outbox| {
        DeliverKeepsInv(g, cable, pair, s, who, index);
      }
    case End(_) =>
      InboxKeepsInv(g, cable, logs, pair, who, m, t.Of(who).inbox);
      QuietKeepsInv(g, cable, pair, s, t, who);
    case GiveUp(_) =>
      if m.failure.None? {
        FlagsKeepInv(g, cable, logs, pair, who, m, m.stalled, Some(Emulator));
        QuietKeepsInv(g, cable, pair, s, t, who);
      }
  }

  lemma SentInOrder<P, H>(g: Game<P, H>, cable: Cable, logs: Logs, pair: P, who: bool, m: Machine<P, H>)
    requires MachineInv(g, cable, logs, pair, who, m)
    ensures |m.outbox| == m.frame + (if m.framePrepared then 1 else 0)
    ensures forall i :: 0 <= i < |m.outbox| ==> m.outbox[i].0 == cable.delay + i
  {
  }

  lemma DeliverKeepsInv<P(!new), H>(g: Game<P, H>, cable: Cable, pair: P, s: Global<P, H>, who: bool, index: nat)
    requires Inv(g, cable, pair, s) && index < |s.Of(!who).outbox|
    ensures var t := Next(g, cable, s, Deliver(who, index));
      Inv(g, cable, pair, t) && LogsOf(cable, t) == LogsOf(cable, s)
  {
    var t := Next(g, cable, s, Deliver(who, index));
    hide MachineInv, LogOf;
    SentInOrder(g, cable, LogsOf(cable, s), pair, !who, s.Of(!who));
    InboxKeepsInv(g, cable, LogsOf(cable, s), pair, who, s.Of(who), t.Of(who).inbox);
    QuietKeepsInv(g, cable, pair, s, t, who);
  }

  lemma {:induction false} PrefillHolds(delay: nat, input: seq<bv8>)
    ensures forall f :: f in Prefill(delay, input) <==> 0 <= f < delay
    ensures forall f :: 0 <= f < delay ==>
            f in Prefill(delay, input) && Prefill(delay, input)[f] == [ChangeInput(input)]
  {
    if delay > 0 { PrefillHolds(delay - 1, input); }
  }

  lemma BeginLinkInv<P(!new), H>(g: Game<P, H>, cable: Cable, logs: Logs, pair: P, who: bool, held: seq<Event>)
    requires Plugged(g, cable, pair) && Writes(held) && logs.Of(who) == LogOf<H>(cable, who, [])
    ensures var m := BeginLink<P, H>(cable.For(who), pair, held);
      MachineInv(g, cable, logs, pair, who, m) && m.outbox == [] && m.inbox.frames == map[]
      && m.history == [] && m.failure.None? && m.inbox.applied == 0 && m.partnerFrame == 0 && !m.partnerPrepared
      && m.pendingHash.None? && m.computedHashes == [] && m.hashDueAt.None?
  {
    PrefillHolds(cable.delay, cable.Input(who));
    var m := BeginLink<P, H>(cable.For(who), pair, held);
    var log := logs.Of(who);
    assert |log| == cable.delay;
    forall f | 0 <= f < |log| ensures Complete(log[f]) { assert log[f][..0] == []; }
    assert Queued(m.queue, m.nextSendFrame) == [];
    assert CommonSequence(g, logs, pair, 0) == Some((Start(pair), []));
    assert MachineInv(g, cable, logs, pair, who, m);
  }

  lemma InitInv<P(!new), H>(g: Game<P, H>, cable: Cable, pair: P, heldFirst: seq<Event>, heldSecond: seq<Event>)
    requires Plugged(g, cable, pair) && Writes(heldFirst) && Writes(heldSecond)
    ensures Inv(g, cable, pair, Init<P, H>(cable, pair, heldFirst, heldSecond))
  {
    var logs := Logs(LogOf<H>(cable, true, []), LogOf<H>(cable, false, []));
    BeginLinkInv(g, cable, logs, pair, true, heldFirst);
    BeginLinkInv(g, cable, logs, pair, false, heldSecond);
    var s := Init<P, H>(cable, pair, heldFirst, heldSecond);
    assert LogsOf(cable, s) == logs;
    forall who ensures MachineInv(g, cable, logs, pair, who, s.Of(who))
           && InboxInv(cable, s.Of(who), s.Of(!who).outbox) {
      if !who { assert s.Of(who) == s.second; }
    }
  }

  lemma {:induction false} AlwaysInv<P(!new), H>(g: Game<P, H>, cable: Cable, pair: P, heldFirst: seq<Event>,
      heldSecond: seq<Event>, actions: seq<Action>)
    requires Plugged(g, cable, pair) && Writes(heldFirst) && Writes(heldSecond)
    ensures Inv(g, cable, pair, RunAll(g, cable, Init<P, H>(cable, pair, heldFirst, heldSecond), actions))
    decreases |actions|
  {
    if actions == [] {
      InitInv(g, cable, pair, heldFirst, heldSecond);
    } else {
      AlwaysInv(g, cable, pair, heldFirst, heldSecond, actions[..|actions| - 1]);
      NextKeepsInv(g, cable, pair,
                   RunAll(g, cable, Init<P, H>(cable, pair, heldFirst, heldSecond), actions[..|actions| - 1]),
                   actions[|actions| - 1]);
    }
  }
}
