/**
  The cable as the program runs it: the inbox the network reader pushes into, and the session the
  core thread drives. Every method changes its object exactly as the function of the same name in
  `LinkMachine` says.
 */
module LinkCable {
  import opened Wrappers
  import opened LinkGame
  import M = LinkMachine

  /** A non-empty ordered map has a smallest key: any key, unless a smaller one is there. */
  lemma {:induction false} HasFirst(keys: set<nat>, some: nat)
    requires some in keys
    ensures exists first :: first in keys && forall k :: k in keys ==> first <= k
    decreases some
  {
    if smaller :| smaller in keys && smaller < some {
      HasFirst(keys, smaller);
    }
  }

  class LinkInbox<H> {
    var frames: map<nat, M.LinkFrame<H>>
    var applied: nat
    var newest: nat
    var ended: bool

    ghost function Value(): M.Inbox<H>
      reads this
    {
      M.Inbox(frames, applied, newest, ended)
    }

    constructor ()
      ensures Value() == M.Inbox(map[], 0, 0, false)
    {
      frames, applied, newest, ended := map[], 0, 0, false;
    }

    method Push(frame: nat, linkFrame: M.LinkFrame<H>)
      modifies this
      ensures Value() == M.Push(old(Value()), frame, linkFrame)
    {
      if frame < applied || frame > applied + M.MAX_INBOX_AHEAD_FRAMES {
        return;
      }
      frames := frames[frame := linkFrame];
      if frame > newest { newest := frame; }
    }

    method End()
      modifies this
      ensures Value() == old(Value()).(ended := true)
    {
      ended := true;
    }

    /** The events of `frame`, when they have arrived; whatever is older goes too. */
    method Take(frame: nat) returns (taken: Option<M.LinkFrame<H>>)
      modifies this
      ensures (Value(), taken) == M.Take(old(Value()), frame)
    {
      if frame !in frames { return None; }
      taken := Some(frames[frame]);
      ghost var before := frames;
      frames := frames - {frame};
      applied := frame + 1;
      DropOlder(frame);
      assert frames == M.Above(before, frame);
    }

    /** Smallest key first, until none is older. */
    method DropOlder(frame: nat)
      modifies `frames
      ensures forall k :: k in frames <==> k in old(frames) && k > frame
      ensures forall k :: k in frames ==> frames[k] == old(frames)[k]
    {
      while frames != map[]
        invariant forall k :: k in frames ==> k in old(frames) && frames[k] == old(frames)[k]
        invariant forall k :: k in old(frames) && k > frame ==> k in frames
        decreases frames.Keys
      {
        ghost var some :| some in frames;
        HasFirst(frames.Keys, some);
        var first :| first in frames && forall k :: k in frames ==> first <= k;
        if first > frame { break; }
        frames := frames - {first};
      }
    }
  }

  lemma NothingToApply<P, H>(g: Game<P, H>, pair: P, who: bool)
    ensures ApplyBatch(g, pair, who, []) == pair
  {
  }

  class LinkSession<P(!new), H(==)> {
    const game: Game<P, H>
    const settings: M.Settings
    const inbox: LinkInbox<H>

    var queue: map<nat, Batch>
    var frame: nat
    var nextSendFrame: nat
    var framePrepared: bool
    var computedHashes: seq<(nat, H)>
    var receivedHashes: seq<(nat, H)>
    var pendingHash: Option<(nat, H)>
    var hashDueAt: Option<nat>
    var firstFrames: nat
    var stalled: bool
    var failure: Option<M.Failure>

    var partnerFrame: nat
    var partnerPrepared: bool
    var pair: P

    /** What was handed to the publisher. */
    var outbox: seq<(nat, M.LinkFrame<H>)>
    ghost var begun: Option<Batch>
    ghost var history: seq<StepRecord>

    /** The writes asked for that are not scheduled yet. */
    var waiting: seq<Event>

    ghost function Value(): M.Machine<P, H>
      reads this, inbox
    {
      M.Machine(queue, frame, nextSendFrame, framePrepared, computedHashes, receivedHashes, pendingHash, hashDueAt,
                firstFrames, stalled, failure,
                partnerFrame, partnerPrepared, inbox.Value(), pair, outbox, begun, history, waiting)
    }

    constructor (game: Game<P, H>, settings: M.Settings, inbox: LinkInbox<H>, pair: P, heldWrites: seq<Event>)
      requires inbox.Value() == M.Inbox(map[], 0, 0, false)
      ensures this.game == game && this.settings == settings && this.inbox == inbox
      ensures Value() == M.BeginLink<P, H>(settings, pair, heldWrites)
    {
      this.game, this.settings, this.inbox, this.pair := game, settings, inbox, pair;
      frame, nextSendFrame, framePrepared := 0, settings.delay, false;
      computedHashes, receivedHashes, pendingHash, hashDueAt, firstFrames := [], [], None, None, 0;
      stalled, failure, partnerFrame, partnerPrepared := false, None, 0, false;
      outbox, begun, history, waiting := [], None, [], heldWrites;
      queue := map[];
      new;
      var f := 0;
      while f < settings.delay
        invariant f <= settings.delay
        invariant Value()
                  == M.Machine(M.Prefill(f, settings.localInput), 0, settings.delay, false, [], [], None, None, 0,
                               false, None,
                                       0, false, M.Inbox(map[], 0, 0, false), pair, [], None, [], heldWrites)
      {
        queue := queue[f := [ChangeInput(settings.localInput)]];
        f := f + 1;
      }
    }

    method Schedule(event: Event)
      modifies this`queue
      ensures Value() == M.Schedule(old(Value()), event)
    {
      var scheduled := if nextSendFrame in queue then queue[nextSendFrame] else [];
      if event.ResetConsole? {
        scheduled := [event] + scheduled;
      } else {
        scheduled := scheduled + [event];
      }
      queue := queue[nextSendFrame := scheduled];
    }

    /** A memory write, with all that wait before it. */
    method EnqueueWrite(event: Event)
      requires !event.ResetConsole?
      modifies this`queue, this`waiting
      ensures Value() == M.Ask(old(Value()), event)
    {
      waiting := waiting + [event];
      var writes := waiting;
      waiting := [];
      ghost var before := Value();
      for i := 0 to |writes|
        invariant waiting == [] && Value() == before.(queue := queue)
        invariant M.ScheduleAll(Value(), writes[i..]) == M.ScheduleAll(before, writes)
      {
        Schedule(writes[i]);
        assert writes[i..][1..] == writes[i + 1..];
      }
    }

    method HardReset()
      modifies this`queue
      ensures Value() == M.Ask(old(Value()), ResetConsole)
    {
      Schedule(ResetConsole);
    }

    /** The events of a frame take effect on a console, in order. */
    method ApplyEvents(who: bool, events: Batch)
      modifies this`pair
      ensures pair == ApplyBatch(game, old(pair), who, events)
    {
      var i := 0;
      while i < |events|
        invariant i <= |events|
        invariant ApplyBatch(game, pair, who, events[i..]) == ApplyBatch(game, old(pair), who, events)
      {
        if !events[i].Ignored? {
          pair := game.apply(pair, who, events[i]);
        }
        assert events[i..][1..] == events[i + 1..];
        i := i + 1;
      }
      assert events[i..] == [];
    }

    method PrepareLocalFrame(input: seq<bv8>)
      modifies this
      ensures Value() == M.PrepareLocal(game, settings, old(Value()), input)
    {
      hide ApplyBatch;
      SendFrame(input);
      ApplyScheduled();
    }

    method SendFrame(input: seq<bv8>)
      modifies this`queue, this`outbox, this`pendingHash, this`nextSendFrame
      ensures Value() == M.SendFresh(old(Value()), input)
    {
      var scheduled := M.Queued(queue, nextSendFrame) + [ChangeInput(input)];
      queue := queue[nextSendFrame := scheduled];
      outbox := outbox + [(nextSendFrame, M.LinkFrame(scheduled, pendingHash))];
      pendingHash := None;
      nextSendFrame := nextSendFrame + 1;
    }

    method ApplyScheduled()
      modifies this`queue, this`framePrepared, this`begun, this`pair
      ensures Value() == M.ApplyScheduled(game, settings, old(Value()))
    {
      hide ApplyBatch;
      begun := if frame in queue then Some(queue[frame]) else None;
      framePrepared := true;
      if frame in queue {
        ApplyEvents(settings.localIsFirst, queue[frame]);
      } else {
        NothingToApply(game, pair, settings.localIsFirst);
      }
      queue := queue - {frame};
    }

    /** Match every received hash against the computed ones: which stay, and the first that differs. */
    static method Match(received: seq<(nat, H)>, computed: seq<(nat, H)>)
        returns (kept: seq<(nat, H)>, found: Option<nat>)
      ensures kept == M.Unmatched(received, computed) && found == M.FirstMismatch(received, computed)
    {
      var oldest := if computed == [] then 0 else computed[0].0;
      found, kept := None, [];
      var i := 0;
      while i < |received|
        invariant i <= |received|
        invariant kept + M.Unmatched(received[i..], computed) == M.Unmatched(received, computed)
        invariant (if found.Some? then found else M.FirstMismatch(received[i..], computed))
                  == M.FirstMismatch(received, computed)
      {
        var (at, hash) := received[i];
        assert received[i..][1..] == received[i + 1..];
        var mine := M.Lookup(computed, at);
        if mine.Some? {
          if mine.value != hash && found.None? { found := Some(at); }
        } else if at >= oldest {
          kept := kept + [received[i]];
        }
        i := i + 1;
      }
      assert received[i..] == [];
    }

    /** Drop what matched or went stale, and report a difference. */
    method MatchHashes() returns (mismatch: Option<M.Failure>)
      modifies this`receivedHashes
      ensures (Value(), mismatch) == M.MatchHashes(old(Value()))
    {
      hide M.Unmatched, M.FirstMismatch;
      var kept, found := Match(receivedHashes, computedHashes);
      receivedHashes := M.Newest(kept);
      mismatch := M.FailureOf(found);
    }

    method NoteComputedHash(at: nat, hash: H) returns (mismatch: Option<M.Failure>)
      modifies this`pendingHash, this`computedHashes, this`receivedHashes
      ensures (Value(), mismatch) == M.NoteComputedHash(old(Value()), at, hash)
    {
      pendingHash := Some((at, hash));
      computedHashes := computedHashes + [(at, hash)];
      if |computedHashes| > M.PAIR_HASH_WINDOW {
        computedHashes := computedHashes[|computedHashes| - M.PAIR_HASH_WINDOW..];
      }
      mismatch := MatchHashes();
    }

    method PreparePartnerFrame() returns (ready: M.PartnerFrame)
      modifies this, inbox
      ensures (Value(), ready) == M.PreparePartner(game, settings, old(Value()))
    {
      hide ApplyBatch, M.Take, M.NoteReceivedHash;
      var linkFrame := NextPartnerFrame();
      if linkFrame.None? {
        ready := if inbox.ended then M.Ended else M.Waiting;
        return;
      }
      partnerPrepared := true;
      begun := Some(linkFrame.value.events);
      ApplyEvents(!settings.localIsFirst, linkFrame.value.events);
      var mismatch := NoteReceivedHash(linkFrame.value.pairHash);
      ready := if mismatch.Some? then M.Mismatch(mismatch.value) else M.Ready;
    }

    /** What the partner's console is given next: pre-filled input, or what arrived. */
    method NextPartnerFrame() returns (linkFrame: Option<M.LinkFrame<H>>)
      modifies inbox
      ensures (inbox.Value(), linkFrame) ==
              if partnerFrame < settings.delay
                 then (old(inbox.Value()), Some(M.LinkFrame([ChangeInput(settings.partnerInput)], None)))
              else M.Take(old(inbox.Value()), partnerFrame)
      ensures linkFrame.None? ==> inbox.Value() == old(inbox.Value())
    {
      hide M.Above;
      if partnerFrame < settings.delay {
        return Some(M.LinkFrame([ChangeInput(settings.partnerInput)], None));
      }
      linkFrame := inbox.Take(partnerFrame);
    }

    method NoteReceivedHash(pairHash: Option<(nat, H)>) returns (mismatch: Option<M.Failure>)
      modifies this`receivedHashes
      ensures (Value(), mismatch) == M.NoteReceivedHash(old(Value()), pairHash)
    {
      hide M.MatchHashes;
      if pairHash.None? { return None; }
      receivedHashes := receivedHashes + [pairHash.value];
      mismatch := MatchHashes();
    }

    method FirstFrameCompleted()
      modifies this`firstFrames, this`hashDueAt
      ensures Value() == M.FirstFrameCompleted(old(Value()))
    {
      firstFrames := firstFrames + 1;
      if firstFrames % M.PAIR_HASH_INTERVAL_FRAMES == 0 {
        hashDueAt := Some(firstFrames);
      }
    }

    method FrameCompleted(local: bool, frames: nat)
      modifies this
      ensures Value() == M.FrameCompleted(old(Value()), local, frames)
    {
      if frames > 0 {
        if local {
          frame, framePrepared := frame + frames, false;
        } else {
          partnerFrame, partnerPrepared := partnerFrame + frames, false;
        }
      }
    }

    /** One step of a console and its bookkeeping. */
    method Step(local: bool) returns (outcome: M.Outcome)
      modifies this
      ensures (Value(), outcome) == M.StepOne(game, settings, old(Value()), local)
    {
      var who := settings.localIsFirst == local;
      var stepped := game.step(pair, who);
      if stepped.None? {
        failure := Some(M.Emulator);
        return M.Failed(M.Emulator);
      }
      var (q, frames) := stepped.value;
      Advance(local, q, frames);
      if local {
        stalled := false;
        outcome := M.Ran(frames);
      } else {
        outcome := M.PartnerRan(frames);
      }
    }

    method Advance(local: bool, q: P, frames: nat)
      modifies this
      ensures Value() == M.Stepped(old(Value()), settings, local, q, frames)
    {
      hide M.FrameCompleted, M.FirstFrameCompleted;
      var who := settings.localIsFirst == local;
      pair := q;
      history := history + [StepRecord(who, begun, frames)];
      begun := None;
      FrameCompleted(local, frames);
      if frames > 0 && who {
        FirstFrameCompleted();
      }
    }

    method Iterate(input: seq<bv8>, idle: bool) returns (outcome: M.Outcome)
      modifies this, inbox
      ensures (Value(), outcome) == M.Iterate(game, settings, old(Value()), input, idle)
    {
      var turn := SecondRunsNext(game, pair);
      if turn.None? {
        failure := Some(M.Emulator);
        return M.Failed(M.Emulator);
      }
      var secondRuns := turn.value;
      if !secondRuns && hashDueAt.Some? {
        var due := hashDueAt.value;
        hashDueAt := None;
        var mismatch := NoteComputedHash(due, game.pairHash(pair));
        if mismatch.Some? {
          failure := mismatch;
          return M.Failed(mismatch.value);
        }
      }
      if secondRuns != settings.localIsFirst {
        outcome := RunLocal(input, idle);
      } else {
        outcome := RunPartner();
      }
    }

    method RunLocal(input: seq<bv8>, idle: bool) returns (outcome: M.Outcome)
      modifies this
      ensures (Value(), outcome) == M.LocalTurn(game, settings, old(Value()), input, idle)
    {
      if !game.midFrame(pair, settings.localIsFirst) && !framePrepared {
        PrepareLocalFrame(input);
      }
      if idle {
        stalled := false;
        outcome := M.Ran(0);
      } else {
        outcome := Step(true);
      }
    }

    method RunPartner() returns (outcome: M.Outcome)
      modifies this, inbox
      ensures (Value(), outcome) == M.PartnerTurn(game, settings, old(Value()))
    {
      if !game.midFrame(pair, !settings.localIsFirst) && !partnerPrepared {
        var ready := PreparePartnerFrame();
        match ready {
          case Ready =>
          case Waiting =>
            stalled := true;
            return M.Stalled;
          case Ended =>
            failure := Some(M.PartnerEnded);
            return M.Failed(M.PartnerEnded);
          case Mismatch(why) =>
            failure := Some(why);
            return M.Failed(why);
        }
      }
      outcome := Step(false);
    }

    /** Step the pair: the partner until it is the local console's turn, then the local console. */
    method RunLinked(input: seq<bv8>, idle: bool) returns (outcome: M.Outcome)
      modifies this, inbox
      ensures (Value(), outcome) == M.CallRunLinked(game, settings, old(Value()), input, idle)
    {
      hide M.Iterate;
      if failure.Some? { return M.Failed(failure.value); }
      var budget := M.MAX_STEPS;
      while budget > 0
        invariant M.RunLinked(game, settings, Value(), input, idle, budget)
                  == M.RunLinked(game, settings, old(Value()), input, idle, M.MAX_STEPS)
        decreases budget
      {
        outcome := Iterate(input, idle);
        if !outcome.PartnerRan? { return; }
        budget := budget - 1;
      }
      failure := Some(M.Emulator);
      outcome := M.Failed(M.Emulator);
    }
  }
}
