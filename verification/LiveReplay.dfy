/**
  Following another player's game: the bounded queue between the network reader and the core, and
  what the core does with each item, as functions on values.
 */
module LiveReplay {
  import opened Wrappers

  const MAX_QUEUED_FRAMES: nat := 1200
  const POST_LOAD_FRAMES: nat := 3

  /** In milliseconds, like every time here. */
  const SNAPSHOT_REQUEST_INTERVAL: nat := 2000

  datatype Packet =
    | Keyframe(frame: nat, input: seq<bv8>, state: seq<bv8>)   // a snapshot, with its state
    | NextFrame(delta: nat)
    | Other(data: seq<bv8>)                                    // inputs, writes, resets, loads, counters, link traffic

  datatype LiveItem<H> = PacketItem(packet: Packet) | SyncHash(frame: nat, hash: H) {
    predicate IsSnapshot() { PacketItem? && packet.Keyframe? }
    predicate IsNextFrame() { PacketItem? && packet.NextFrame? }
  }

  datatype Reason = Join | HashMismatch | TooFarBehind | QueueOverflow | Gap | LoadFailed

  /** What happened upstream: the snapshots that came, and the requests that went out. */
  datatype Traffic = Snapshot | Requested(reason: Reason, at: nat)

  datatype Queue<H> = Queue(
    items: seq<LiveItem<H>>,
    framesQueued: nat,
    newestFrame: nat,
    haveSnapshot: bool,
    requestAllowedAt: Option<nat>,
    ended: bool,
    traffic: seq<Traffic>)

  /** The frame markers among `items`. */
  function FrameCount<H>(items: seq<LiveItem<H>>): nat
  {
    if items == [] then 0 else FrameCount(items[..|items| - 1]) + if items[|items| - 1].IsNextFrame() then 1 else 0
  }

  function NewQueue<H>(): Queue<H> { Queue([], 0, 0, false, None, false, []) }

  /** Ask for a snapshot, unless one was asked for within the interval and none has come since. */
  function RequestSnapshot<H>(q: Queue<H>, reason: Reason, now: nat): Queue<H>
  {
    if q.requestAllowedAt.Some? && now < q.requestAllowedAt.value then q
    else q.(requestAllowedAt := Some(now + SNAPSHOT_REQUEST_INTERVAL), traffic := q.traffic + [Requested(reason, now)])
  }

  function DropAll<H>(q: Queue<H>): Queue<H> { q.(items := [], framesQueued := 0, haveSnapshot := false) }

  function PushPacket<H>(q: Queue<H>, packet: Packet, now: nat): Queue<H>
  {
    if packet.Keyframe? then
      q.(items := [PacketItem(packet)], framesQueued := 0, newestFrame := packet.frame, haveSnapshot := true,
         requestAllowedAt := None, traffic := q.traffic + [Snapshot])
    else if !q.haveSnapshot then q
    else if packet.NextFrame? then
      if q.framesQueued >= MAX_QUEUED_FRAMES then RequestSnapshot(DropAll(q), QueueOverflow, now)
      else q.(items := q.items + [PacketItem(packet)], framesQueued := q.framesQueued + 1,
              newestFrame := q.newestFrame + 1)
    else q.(items := q.items + [PacketItem(packet)])
  }

  function PushSyncHash<H>(q: Queue<H>, frame: nat, hash: H): Queue<H>
  {
    if !q.haveSnapshot then q else q.(items := q.items + [SyncHash(frame, hash)])
  }

  function Push<H>(q: Queue<H>, item: LiveItem<H>, now: nat): Queue<H>
  {
    match item
    case PacketItem(packet) => PushPacket(q, packet, now)
    case SyncHash(frame, hash) => PushSyncHash(q, frame, hash)
  }

  /** The queue's own bookkeeping: frames are counted and bounded, a snapshot can only be first,
      and nothing is kept before one. */
  ghost predicate QueueInv<H>(q: Queue<H>)
  {
    && q.framesQueued == FrameCount(q.items) <= MAX_QUEUED_FRAMES
    && (forall i :: 0 < i < |q.items| ==> !q.items[i].IsSnapshot())
    && (q.items != [] ==> q.haveSnapshot)
  }

  datatype Poll<H> = Item(item: LiveItem<H>) | Waiting | Ended

  function Pop<H>(q: Queue<H>): (Queue<H>, Poll<H>)
    requires QueueInv(q)
  {
    if q.items == [] then (q, if q.ended then Ended else Waiting)
    else
      FrameCountHead(q.items);
      (q.(items := q.items[1..], framesQueued := q.framesQueued - if q.items[0].IsNextFrame() then 1 else 0),
       Item(q.items[0]))
  }

  function DiscardUntilSnapshot<H>(q: Queue<H>, reason: Reason, now: nat): Queue<H>
  {
    RequestSnapshot(DropAll(q), reason, now)
  }

  lemma {:induction false} FrameCountHead<H>(items: seq<LiveItem<H>>)
    requires items != []
    ensures FrameCount(items) == FrameCount(items[1..]) + if items[0].IsNextFrame() then 1 else 0
    decreases |items|
  {
    if |items| > 1 {
      var front := items[..|items| - 1];
      FrameCountHead(front);
      assert items[1..][..|items| - 2] == front[1..];
    } else {
      assert items[..0] == [] && items[1..] == [];
    }
  }

  /** What a push does: nothing is kept, a snapshot replaces everything, or the item goes last. */
  lemma PushCases<H>(q: Queue<H>, item: LiveItem<H>, now: nat)
    requires QueueInv(q)
    ensures var r := Push(q, item, now);
      && QueueInv(r)
      && (if !r.haveSnapshot then r.items == []
          else if item.IsSnapshot() then r.items == [item] && r.newestFrame == item.packet.frame
          else q.haveSnapshot && r.items == q.items + [item] && r.newestFrame == q.newestFrame + if item.IsNextFrame()
               then 1 else 0)
  {
    hide FrameCount;
    FrameCountLast(q.items, item);
    FrameCountLast([], item);
    NoFrames<H>();
    assert [] + [item] == [item];
    if item.PacketItem? { PushPacketCases(q, item.packet, now); }
  }

  lemma PushPacketCases<H>(q: Queue<H>, packet: Packet, now: nat)
    requires QueueInv(q)
    requires FrameCount(q.items + [PacketItem(packet)]) == FrameCount(q.items) + if packet.NextFrame? then 1 else 0
    requires FrameCount<H>([PacketItem(packet)]) == if packet.NextFrame? then 1 else 0
    ensures var r := PushPacket(q, packet, now);
      && QueueInv(r)
      && (if !r.haveSnapshot then r.items == []
          else if packet.Keyframe? then r.items == [PacketItem(packet)] && r.newestFrame == packet.frame
          else q.haveSnapshot && r.items == q.items + [PacketItem(packet)]
               && r.newestFrame == q.newestFrame + if packet.NextFrame? then 1 else 0)
  {
    hide FrameCount;
    assert FrameCount<H>([]) == 0 by { NoFrames<H>(); }
  }

  lemma NoFrames<H>()
    ensures FrameCount<H>([]) == 0
  {
  }

  lemma FrameCountLast<H>(items: seq<LiveItem<H>>, item: LiveItem<H>)
    ensures FrameCount(items + [item]) == FrameCount(items) + if item.IsNextFrame() then 1 else 0
  {
    assert (items + [item])[..|items|] == items;
  }

  lemma PushKeepsQueueInv<H>(q: Queue<H>, item: LiveItem<H>, now: nat)
    requires QueueInv(q)
    ensures QueueInv(Push(q, item, now))
  {
    PushCases(q, item, now);
  }

  // ---- The console -----------------------------------------------------------------------------

  /** A console core: `restore` loads a state and presses the given buttons, and says whether the
      load worked (the console may be anything after one that did not). */
  datatype Core<!C, !H> = Core(
    run: C -> C,
    apply: (C, seq<bv8>) -> C,
    restore: (C, seq<bv8>, seq<bv8>) -> (C, bool),
    hash: C -> Option<H>)

  /** `mustDiscard`: a snapshot would not load and the queue has not been told yet. */
  datatype Follower<C> = Follower(
    console: C,
    totalFrames: nat,
    framePending: bool,
    waiting: bool,
    stalled: bool,
    mustDiscard: bool,
    hashSuppressedUntil: nat,
    failedLoads: nat,
    snapshotsApplied: nat,
    hashMismatches: nat)

  function NewFollower<C>(console: C, totalFrames: nat): Follower<C>
  {
    Follower(console, totalFrames, false, true, false, false, 0, 0, 0, 0)
  }

  function ApplySnapshot<C, H>(core: Core<C, H>, f: Follower<C>, frame: nat, input: seq<bv8>,
      state: seq<bv8>): Follower<C>
  {
    var (console, loaded) := core.restore(f.console, state, input);
    if loaded then
      f.(console := console, totalFrames := frame, framePending := false, stalled := false, failedLoads := 0,
         hashSuppressedUntil := frame + POST_LOAD_FRAMES, snapshotsApplied := f.snapshotsApplied + 1)
    else f.(console := console, mustDiscard := true, failedLoads := f.failedLoads + 1)
  }

  /** Whether `hash`, said to be the publisher's after `frame`, is found to differ. */
  predicate Mismatches<C, H(==)>(core: Core<C, H>, f: Follower<C>, frame: nat, hash: H)
  {
    && frame == f.totalFrames && frame >= f.hashSuppressedUntil
    && core.hash(f.console).Some? && core.hash(f.console).value != hash
  }

  /** One item out of the queue and its effect. */
  function ReadOne<C, H(==)>(core: Core<C, H>, q: Queue<H>, f: Follower<C>, now: nat): (Queue<H>, Follower<C>)
    requires QueueInv(q)
  {
    var (rest, poll) := Pop(q);
    match poll
    case Waiting => (rest, f.(waiting := true))
    case Ended => (rest, f.(waiting := false, stalled := true))
    case Item(SyncHash(frame, hash)) =>
      if Mismatches(core, f, frame, hash) then
        (RequestSnapshot(rest, HashMismatch, now), f.(hashMismatches := f.hashMismatches + 1))
      else (rest, f)
    case Item(PacketItem(packet)) =>
      match packet
      case Keyframe(frame, input, state) => (rest, ApplySnapshot(core, f, frame, input, state))
      case NextFrame(_) => (rest, f.(framePending := true, waiting := false))
      case Other(data) => (rest, f.(console := core.apply(f.console, data)))
  }

  /** The frame that was read is emulated; nothing is read before that. */
  function RunFrame<C, H>(core: Core<C, H>, f: Follower<C>): Follower<C>
  {
    f.(console := core.run(f.console), totalFrames := f.totalFrames + 1, framePending := false)
  }

  /** Read up to the next frame marker, or as far as there is something to read. */
  function ReadFrame<C, H(==)>(core: Core<C, H>, q: Queue<H>, f: Follower<C>, now: nat): (Queue<H>, Follower<C>)
    requires QueueInv(q)
    decreases |q.items|
  {
    if q.items == [] then ReadOne(core, q, f, now)
    else
      ReadOneKeepsQueueInv(core, q, f, now);
      var (rest, g) := ReadOne(core, q, f, now);
      if g.mustDiscard && !f.mustDiscard then
        var dropped := DiscardUntilSnapshot(rest, LoadFailed, now);
        var h := g.(mustDiscard := false);
        if h.stalled then (dropped, h) else ReadFrame(core, dropped, h, now)
      else if q.items[0].IsNextFrame() || (q.items[0].IsSnapshot() && g.stalled) then (rest, g)
      else ReadFrame(core, rest, g, now)
  }

  lemma ReadOneKeepsQueueInv<C, H>(core: Core<C, H>, q: Queue<H>, f: Follower<C>, now: nat)
    requires QueueInv(q)
    ensures QueueInv(ReadOne(core, q, f, now).0)
    ensures ReadOne(core, q, f, now).0.items == if q.items == [] then [] else q.items[1..]
    ensures QueueInv(DiscardUntilSnapshot(q, LoadFailed, now))
  {
    if q.items != [] { FrameCountHead(q.items); }
  }
}
