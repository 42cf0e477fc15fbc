/**
  The queue and the following core as the program runs them. Every method changes its object
  exactly as the function it names in `LiveReplay` says.
 */
module LiveFollower {
  import opened Wrappers
  import L = LiveReplay

  lemma DroppedIsSound<H>(q: L.Queue<H>)
    requires q.items == [] && q.framesQueued == 0
    ensures L.QueueInv(q)
  {
    L.NoFrames<H>();
  }

  /** Shared by the feeder and the source; every method is one section under its lock. */
  class LiveQueue<H> {
    var items: seq<L.LiveItem<H>>
    var framesQueued: nat
    var newestFrame: nat
    var haveSnapshot: bool
    var requestAllowedAt: Option<nat>
    var ended: bool

    /** The snapshots that came and the requests sent upstream. */
    var traffic: seq<L.Traffic>

    ghost function Value(): L.Queue<H>
      reads this
    {
      L.Queue(items, framesQueued, newestFrame, haveSnapshot, requestAllowedAt, ended, traffic)
    }

    ghost predicate Valid()
      reads this
    {
      L.QueueInv(Value())
    }

    constructor ()
      ensures Valid() && Value() == L.NewQueue()
    {
      items, framesQueued, newestFrame, haveSnapshot := [], 0, 0, false;
      requestAllowedAt, ended, traffic := None, false, [];
    }

    method RequestSnapshot(reason: L.Reason, now: nat)
      requires Valid()
      modifies this`requestAllowedAt, this`traffic
      ensures Valid() && Value() == L.RequestSnapshot(old(Value()), reason, now)
    {
      if requestAllowedAt.Some? && now < requestAllowedAt.value {
        return;
      }
      requestAllowedAt := Some(now + L.SNAPSHOT_REQUEST_INTERVAL);
      traffic := traffic + [L.Requested(reason, now)];
    }

    method PushPacket(packet: L.Packet, now: nat)
      requires Valid()
      modifies this
      ensures Valid() && Value() == L.PushPacket(old(Value()), packet, now)
    {
      hide L.FrameCount, L.QueueInv;
      L.PushKeepsQueueInv(Value(), L.PacketItem(packet), now);
      ghost var pushed := L.PushPacket(Value(), packet, now);
      assert L.QueueInv(pushed);
      if packet.Keyframe? {
        items := [];
        framesQueued := 0;
        newestFrame := packet.frame;
        haveSnapshot := true;
        // The snapshot answers whatever request was outstanding.
        requestAllowedAt := None;
        traffic := traffic + [L.Snapshot];
      } else if !haveSnapshot {
        return;
      } else if packet.NextFrame? {
        if framesQueued >= L.MAX_QUEUED_FRAMES {
          items := [];
          framesQueued := 0;
          haveSnapshot := false;
          DroppedIsSound(Value());
          RequestSnapshot(L.QueueOverflow, now);
          return;
        }
        framesQueued := framesQueued + 1;
        newestFrame := newestFrame + 1;
      }
      assert items == [] ==> items + [L.PacketItem(packet)] == [L.PacketItem(packet)];
      items := items + [L.PacketItem(packet)];
      assert Value() == pushed;
    }

    method PushSyncHash(frame: nat, hash: H)
      requires Valid()
      modifies this`items
      ensures Valid() && Value() == L.PushSyncHash(old(Value()), frame, hash)
    {
      L.PushKeepsQueueInv(Value(), L.SyncHash(frame, hash), 0);
      if haveSnapshot {
        items := items + [L.SyncHash(frame, hash)];
      }
    }

    method End()
      requires Valid()
      modifies this`ended
      ensures Valid() && Value() == old(Value()).(ended := true)
    {
      ended := true;
    }

    method Pop() returns (poll: L.Poll<H>)
      requires Valid()
      modifies this`items, this`framesQueued
      ensures Valid() && (Value(), poll) == L.Pop(old(Value()))
    {
      if items == [] {
        return if ended then L.Ended else L.Waiting;
      }
      L.FrameCountHead(items);
      var item := items[0];
      items := items[1..];
      if item.IsNextFrame() {
        framesQueued := framesQueued - 1;
      }
      poll := L.Item(item);
    }

    method DiscardUntilSnapshot(reason: L.Reason, now: nat)
      requires Valid()
      modifies this
      ensures Valid() && Value() == L.DiscardUntilSnapshot(old(Value()), reason, now)
    {
      items := [];
      framesQueued := 0;
      haveSnapshot := false;
      RequestSnapshot(reason, now);
    }
  }

  lemma RequestKeepsItems<H>(q: L.Queue<H>, now: nat)
    ensures L.RequestSnapshot(q, L.HashMismatch, now).items == q.items
  {
  }

  lemma DiscardEmpties<H>(q: L.Queue<H>, now: nat)
    ensures L.DiscardUntilSnapshot(q, L.LoadFailed, now).items == []
  {
  }

  class FollowingCore<C, H(==)> {
    const core: L.Core<C, H>
    const source: LiveQueue<H>

    var console: C
    var totalFrames: nat
    var replayFramePending: bool
    var replayWaiting: bool
    var replayStalled: bool
    var hashSuppressedUntil: nat
    var failedLoads: nat
    var snapshotsApplied: nat
    var hashMismatches: nat

    ghost function Value(): L.Follower<C>
      reads this
    {
      L.Follower(console, totalFrames, replayFramePending, replayWaiting, replayStalled, false,
                 hashSuppressedUntil, failedLoads, snapshotsApplied, hashMismatches)
    }

    constructor (core: L.Core<C, H>, source: LiveQueue<H>, console: C, totalFrames: nat)
      ensures this.core == core && this.source == source && Value() == L.NewFollower(console, totalFrames)
    {
      this.core, this.source, this.console, this.totalFrames := core, source, console, totalFrames;
      replayFramePending, replayWaiting, replayStalled := false, true, false;
      hashSuppressedUntil, failedLoads, snapshotsApplied, hashMismatches := 0, 0, 0, 0;
    }

    /** Put the console where the publisher was; a state that does not load drops what follows it. */
    method ApplyStreamSnapshot(frame: nat, input: seq<bv8>, state: seq<bv8>, now: nat)
      requires source.Valid()
      modifies this, source
      ensures source.Valid()
      ensures var f := L.ApplySnapshot(core, old(Value()), frame, input, state);
        if f.mustDiscard then
          Value() == f.(mustDiscard := false)
          && source.Value() == L.DiscardUntilSnapshot(old(source.Value()), L.LoadFailed, now)
        else Value() == f && source.Value() == old(source.Value())
    {
      var (restored, loaded) := core.restore(console, state, input);
      console := restored;
      if !loaded {
        failedLoads := failedLoads + 1;
        source.DiscardUntilSnapshot(L.LoadFailed, now);
        return;
      }
      failedLoads := 0;
      totalFrames := frame;
      replayFramePending := false;
      replayStalled := false;
      hashSuppressedUntil := frame + L.POST_LOAD_FRAMES;
      snapshotsApplied := snapshotsApplied + 1;
    }

    method CheckSyncHash(frame: nat, hash: H, now: nat)
      requires source.Valid()
      modifies this`hashMismatches, source
      ensures source.Valid()
      ensures if L.Mismatches(core, old(Value()), frame, hash) then
          Value() == old(Value()).(hashMismatches := old(hashMismatches) + 1)
          && source.Value() == L.RequestSnapshot(old(source.Value()), L.HashMismatch, now)
        else Value() == old(Value()) && source.Value() == old(source.Value())
    {
      if frame != totalFrames || frame < hashSuppressedUntil {
        return;
      }
      var mine := core.hash(console);
      if mine.None? {
        return;
      }
      if mine.value != hash {
        hashMismatches := hashMismatches + 1;
        source.RequestSnapshot(L.HashMismatch, now);
      }
    }

    /** Read one item, when there is one; whether that is all before a frame is run. */
    method ReadItem(now: nat) returns (stop: bool)
      requires source.Valid() && !replayStalled && !replayFramePending
      modifies this, source
      ensures source.Valid()
      ensures var (rest, f) := L.ReadOne(core, old(source.Value()), old(Value()), now);
        (source.Value(), Value()) ==
          if f.mustDiscard then (L.DiscardUntilSnapshot(rest, L.LoadFailed, now), f.(mustDiscard := false))
             else (rest, f)
      ensures stop <==> old(source.items) == [] || old(source.items)[0].IsNextFrame()
      ensures stop ==>
              !L.ReadOne(core, old(source.Value()), old(Value()), now).1.mustDiscard
              && |source.items| <= |old(source.items)|
      ensures !stop ==> !replayStalled && !replayFramePending && |source.items| < |old(source.items)|
    {
      hide L.DiscardUntilSnapshot, L.RequestSnapshot, L.QueueInv, L.FrameCount;
      ghost var q := source.Value();
      var poll := source.Pop();
      stop := false;
      match poll {
        case Waiting =>
          replayWaiting := true;
          stop := true;
        case Ended =>
          replayWaiting := false;
          replayStalled := true;
          stop := true;
        case Item(SyncHash(frame, hash)) =>
          RequestKeepsItems(source.Value(), now);
          CheckSyncHash(frame, hash, now);
        case Item(PacketItem(Keyframe(frame, input, state))) =>
          DiscardEmpties(source.Value(), now);
          ApplyStreamSnapshot(frame, input, state, now);
        case Item(PacketItem(NextFrame(_))) =>
          replayFramePending := true;
          replayWaiting := false;
          stop := true;
        case Item(PacketItem(Other(data))) =>
          console := core.apply(console, data);
      }
    }

    /** Read the live replay up to the next frame marker. */
    method HandleLiveReplay(now: nat)
      requires source.Valid() && !replayStalled && !replayFramePending
      modifies this, source
      ensures source.Valid()
      ensures (source.Value(), Value()) == L.ReadFrame(core, old(source.Value()), old(Value()), now)
    {
      hide L.ReadOne, L.DiscardUntilSnapshot;
      var stop := false;
      ghost var q, f := source.Value(), Value();
      while !stop
        invariant source.Valid() && (!stop ==> !replayStalled && !replayFramePending)
        invariant (if stop then (source.Value(), Value()) else L.ReadFrame(core, source.Value(), Value(), now))
                  == L.ReadFrame(core, q, f, now)
        decreases |source.items|, !stop
      {
        L.ReadOneKeepsQueueInv(core, source.Value(), Value(), now);
        stop := ReadItem(now);
      }
    }

    /** The frame that was read is emulated. */
    method RunFrame()
      requires replayFramePending
      modifies this
      ensures Value() == L.RunFrame(core, old(Value()))
    {
      console := core.run(console);
      totalFrames := totalFrames + 1;
      replayFramePending := false;
    }
  }
}
