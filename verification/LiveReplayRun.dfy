/**
  A publisher, the queue and a follower together: the follower is always exactly where the
  publisher was, whatever was dropped on the way.
 */
module LiveReplayRun {
  import opened Wrappers
  import opened LiveReplay

  // ---- The publisher ---------------------------------------------------------------------------

  datatype Moment<C> = Moment(console: C, frame: nat)

  /** The publisher's console and frame counter after the first `k` items of its stream. */
  function Published<C, H>(core: Core<C, H>, start: Moment<C>, stream: seq<LiveItem<H>>, k: nat): Moment<C>
    requires k <= |stream|
  {
    if k == 0 then start
    else
      var before := Published(core, start, stream, k - 1);
      match stream[k - 1]
      case PacketItem(NextFrame(_)) => Moment(core.run(before.console), before.frame + 1)
      case PacketItem(Other(data)) => Moment(core.apply(before.console, data), before.frame)
      case _ => before
  }

  /** A publisher sends its own state and its own hashes: a snapshot that loads, on any console,
      puts it where the publisher is. */
  ghost predicate Honest<C(!new), H>(core: Core<C, H>, start: Moment<C>, stream: seq<LiveItem<H>>)
  {
    forall k :: 0 <= k < |stream| ==> HonestItem(core, Published(core, start, stream, k), stream[k])
  }

  ghost predicate HonestItem<C(!new), H>(core: Core<C, H>, at: Moment<C>, item: LiveItem<H>)
  {
    match item
    case PacketItem(Keyframe(frame, input, state)) =>
      frame == at.frame && forall c :: core.restore(c, state, input).1 ==> core.restore(c, state, input).0 == at.console
    case SyncHash(frame, hash) => frame == at.frame && core.hash(at.console) == Some(hash)
    case _ => true
  }

  // ---- The system ------------------------------------------------------------------------------

  /** `pushed` items of the stream went into the queue; since the snapshot at index `base` was
      applied the follower has read `since`. No base: the follower's console is not the
      publisher's (it never was, or a load failed). */
  datatype Sys<C, H> = Sys(queue: Queue<H>, follower: Follower<C>, pushed: nat, base: Option<nat>,
      since: seq<LiveItem<H>>) {
    function ReadTo(): nat { if base.None? then 0 else base.value + 1 + |since| }
  }

  datatype Action =
    | Feed(now: nat)                     // the next item of the stream arrives
    | Read(now: nat)                     // the follower takes an item
    | Discard(now: nat)                  // ... and tells the queue that its snapshot would not load
    | Emulate                            // the frame read is run
    | Ask(reason: Reason, now: nat)      // a request for a snapshot, whatever prompted it
    | EndOfStream

  /** What is queued is the newest part of what was pushed, in order and without a gap. */
  ghost predicate FeedInv<C, H>(stream: seq<LiveItem<H>>, s: Sys<C, H>)
  {
    && QueueInv(s.queue) && |s.queue.items| <= s.pushed <= |stream|
    && s.queue.items == stream[s.pushed - |s.queue.items|..s.pushed]
  }

  /** The item at the head, if any, is read: a snapshot starts the account over. */
  function AfterRead<C, H(==)>(core: Core<C, H>, stream: seq<LiveItem<H>>, s: Sys<C, H>, now: nat): Sys<C, H>
    requires FeedInv(stream, s)
  {
    var (queue, follower) := ReadOne(core, s.queue, s.follower, now);
    if s.queue.items == [] then s.(queue := queue, follower := follower)
    else if s.queue.items[0].IsSnapshot() then
      Sys(queue, follower, s.pushed, if follower.mustDiscard then None else Some(s.pushed - |s.queue.items|), [])
    else s.(queue := queue, follower := follower, since := s.since + [s.queue.items[0]])
  }

  function Next<C, H(==)>(core: Core<C, H>, stream: seq<LiveItem<H>>, s: Sys<C, H>, action: Action): Sys<C, H>
    requires FeedInv(stream, s)
  {
    match action
    case Feed(now) =>
      if s.pushed >= |stream| then s else s.(queue := Push(s.queue, stream[s.pushed], now), pushed := s.pushed + 1)
    case Read(now) =>
      if s.follower.stalled || s.follower.framePending || s.follower.mustDiscard then s
      else AfterRead(core, stream, s, now)
    case Discard(now) =>
      if !s.follower.mustDiscard then s
      else s.(queue := DiscardUntilSnapshot(s.queue, LoadFailed, now), follower := s.follower.(mustDiscard := false))
    case Emulate => if !s.follower.framePending then s else s.(follower := RunFrame(core, s.follower))
    case Ask(reason, now) => s.(queue := RequestSnapshot(s.queue, reason, now))
    case EndOfStream => s.(queue := s.queue.(ended := true))
  }

  /** The newest frame the queue knows is the publisher's, for as long as it follows it. */
  ghost predicate FrameInv<C, H>(core: Core<C, H>, start: Moment<C>, stream: seq<LiveItem<H>>, s: Sys<C, H>)
    requires FeedInv(stream, s)
  {
    s.queue.haveSnapshot ==> s.queue.newestFrame == Published(core, start, stream, s.pushed).frame
  }

  /** The follower has read exactly what the publisher sent right after its snapshot, and its
      console is the publisher's there (the frame marker read last takes effect when it is run). */
  ghost predicate FollowInv<C, H>(core: Core<C, H>, start: Moment<C>, stream: seq<LiveItem<H>>, s: Sys<C, H>)
    requires FeedInv(stream, s)
  {
    var f := s.follower;
    && (s.base.Some? ==>
          && s.ReadTo() <= s.pushed && stream[s.base.value].IsSnapshot()
          && s.since == stream[s.base.value + 1..s.ReadTo()]
          && var at := Published(core, start, stream, if f.framePending then s.ReadTo() - 1 else s.ReadTo());
             f.console == at.console && f.totalFrames == at.frame)
    && (f.framePending ==> s.base.Some? && s.since != [] && s.since[|s.since| - 1].IsNextFrame() && !f.mustDiscard)
    && (f.mustDiscard ==> s.base.None?)
    && (s.queue.haveSnapshot && !f.mustDiscard && (s.queue.items == [] || !s.queue.items[0].IsSnapshot()) ==>
          s.base.Some? && s.ReadTo() == s.pushed - |s.queue.items|)
    && f.hashMismatches == 0
  }

  ghost predicate Inv<C, H>(core: Core<C, H>, start: Moment<C>, stream: seq<LiveItem<H>>, s: Sys<C, H>)
  {
    FeedInv(stream, s) && FrameInv(core, start, stream, s) && FollowInv(core, start, stream, s)
  }

  // ---- Preservation ----------------------------------------------------------------------------

  lemma FeedKeepsFeed<C(!new), H>(stream: seq<LiveItem<H>>, s: Sys<C, H>, t: Sys<C, H>, now: nat)
    requires FeedInv(stream, s) && s.pushed < |stream|
    requires t == s.(queue := Push(s.queue, stream[s.pushed], now), pushed := s.pushed + 1)
    ensures FeedInv(stream, t)
  {
    PushCases(s.queue, stream[s.pushed], now);
    hide Push, QueueInv;
  }

  lemma FeedKeepsInv<C(!new), H>(core: Core<C, H>, start: Moment<C>, stream: seq<LiveItem<H>>, s: Sys<C, H>, now: nat)
    requires Honest(core, start, stream) && Inv(core, start, stream, s)
    ensures Inv(core, start, stream, Next(core, stream, s, Feed(now)))
  {
    hide Push, QueueInv, Published, FollowInv, Honest;
    if s.pushed < |stream| {
      var item := stream[s.pushed];
      var t := Next(core, stream, s, Feed(now));
      FeedKeepsFeed(stream, s, t, now);
      PushCases(s.queue, item, now);
      HonestFrame(core, start, stream, s.pushed);
      FeedKeepsFollow(core, start, stream, s, t);
    }
  }

  /** However much arrives, or is dropped, the follower stays where it is; and what it will read
      next is either what comes next or a snapshot. */
  lemma FeedKeepsFollow<C(!new), H>(core: Core<C, H>, start: Moment<C>, stream: seq<LiveItem<H>>, s: Sys<C, H>,
      t: Sys<C, H>)
    requires FeedInv(stream, s) && FeedInv(stream, t) && FollowInv(core, start, stream, s)
    requires t == s.(queue := t.queue, pushed := s.pushed + 1)
    requires t.queue.haveSnapshot ==>
      (t.queue.items != [] && t.queue.items[0].IsSnapshot())
      || (s.queue.haveSnapshot && |t.queue.items| == |s.queue.items| + 1)
    requires t.queue.haveSnapshot && s.queue.items != [] && !t.queue.items[0].IsSnapshot() ==>
             t.queue.items[0] == s.queue.items[0]
    ensures FollowInv(core, start, stream, t)
  {
    hide QueueInv, Published;
  }

  lemma HonestFrame<C(!new), H>(core: Core<C, H>, start: Moment<C>, stream: seq<LiveItem<H>>, k: nat)
    requires Honest(core, start, stream) && k < |stream|
    ensures stream[k].IsSnapshot() ==> stream[k].packet.frame == Published(core, start, stream, k).frame
    ensures Published(core, start, stream, k + 1).frame
            == Published(core, start, stream, k).frame + if stream[k].IsNextFrame() then 1 else 0
  {
    assert HonestItem(core, Published(core, start, stream, k), stream[k]);
  }

  /** The console moves along the stream with the item read. */
  lemma ReadFollows<C(!new), H>(core: Core<C, H>, start: Moment<C>, stream: seq<LiveItem<H>>, s: Sys<C, H>, now: nat)
    requires Honest(core, start, stream) && Inv(core, start, stream, s) && s.queue.items != []
    requires !s.follower.stalled && !s.follower.framePending && !s.follower.mustDiscard
    ensures var head := s.pushed - |s.queue.items|;
      var f := ReadOne(core, s.queue, s.follower, now).1;
      && (s.queue.items[0].IsSnapshot() ==>
            !f.framePending
            && (f.mustDiscard || Moment(f.console, f.totalFrames) == Published(core, start, stream, head)))
      && (!s.queue.items[0].IsSnapshot() ==>
            && s.ReadTo() == head && !f.mustDiscard && f.framePending == s.queue.items[0].IsNextFrame()
            && Moment(f.console, f.totalFrames)
               == Published(core, start, stream, if f.framePending then head else head + 1))
      && f.hashMismatches == 0
  {
    hide FrameCount, FrameInv, Honest;
    var head := s.pushed - |s.queue.items|;
    HeadIsNext(stream, s);
    HonestHead(core, start, stream, head);
  }

  lemma HonestHead<C(!new), H>(core: Core<C, H>, start: Moment<C>, stream: seq<LiveItem<H>>, k: nat)
    requires Honest(core, start, stream) && k < |stream|
    ensures HonestItem(core, Published(core, start, stream, k), stream[k])
  {
  }

  lemma ReadQueue<C, H>(core: Core<C, H>, q: Queue<H>, f: Follower<C>, now: nat)
    requires QueueInv(q)
    ensures var r := ReadOne(core, q, f, now).0;
      QueueInv(r) && r.items == (if q.items == [] then [] else q.items[1..]) && r.haveSnapshot == q.haveSnapshot
      && r.newestFrame == q.newestFrame
  {
    ReadOneKeepsQueueInv(core, q, f, now);
  }

  lemma ReadKeepsInv<C(!new), H>(core: Core<C, H>, start: Moment<C>, stream: seq<LiveItem<H>>, s: Sys<C, H>, now: nat)
    requires Honest(core, start, stream) && Inv(core, start, stream, s)
    ensures Inv(core, start, stream, Next(core, stream, s, Read(now)))
  {
    if !s.follower.stalled && !s.follower.framePending && !s.follower.mustDiscard {
      ReadQueue(core, s.queue, s.follower, now);
      if s.queue.items == [] {
      } else {
        ReadFollows(core, start, stream, s, now);
        NoSnapshotSecond(s.queue);
        ReadItemKeepsInv(core, start, stream, s, now);
      }
    }
  }

  lemma NoSnapshotSecond<H>(q: Queue<H>)
    requires QueueInv(q)
    ensures |q.items| > 1 ==> !q.items[1..][0].IsSnapshot()
  {
  }

  lemma ReadKeepsFeed<C(!new), H>(core: Core<C, H>, start: Moment<C>, stream: seq<LiveItem<H>>, s: Sys<C, H>,
      t: Sys<C, H>)
    requires FeedInv(stream, s) && FrameInv(core, start, stream, s) && s.queue.items != []
    requires QueueInv(t.queue) && t.queue.items == s.queue.items[1..] && t.pushed == s.pushed
    requires t.queue.haveSnapshot == s.queue.haveSnapshot && t.queue.newestFrame == s.queue.newestFrame
    ensures FeedInv(stream, t) && FrameInv(core, start, stream, t)
  {
    hide QueueInv, Published;
    assert t.queue.items == stream[s.pushed - |s.queue.items| + 1..t.pushed];
  }

  /** Which item was read, and how the account goes on. */
  lemma AfterReadIs<C(!new), H>(core: Core<C, H>, stream: seq<LiveItem<H>>, s: Sys<C, H>, now: nat)
    requires FeedInv(stream, s) && s.queue.items != []
    ensures var t := AfterRead(core, stream, s, now);
      && (t.queue, t.follower) == ReadOne(core, s.queue, s.follower, now) && t.pushed == s.pushed
      && (s.queue.items[0].IsSnapshot() ==>
            t.base == (if t.follower.mustDiscard then None else Some(s.pushed - |s.queue.items|)) && t.since == [])
      && (!s.queue.items[0].IsSnapshot() ==> t.base == s.base && t.since == s.since + [s.queue.items[0]])
  {
    hide ReadOne, QueueInv;
  }

  lemma ReadItemKeepsInv<C(!new), H>(core: Core<C, H>, start: Moment<C>, stream: seq<LiveItem<H>>, s: Sys<C, H>,
      now: nat)
    requires Honest(core, start, stream) && Inv(core, start, stream, s) && s.queue.items != []
    requires !s.follower.stalled && !s.follower.framePending && !s.follower.mustDiscard
    ensures Inv(core, start, stream, AfterRead(core, stream, s, now))
  {
    hide ReadOne, QueueInv, Honest, Published, FrameInv, FeedInv, FollowInv, AfterRead;
    InvIsFeed(core, start, stream, s);
    ReadItemKeepsFeed(core, start, stream, s, now);
    ReadItemFollows(core, start, stream, s, now);
  }

  lemma ReadItemKeepsFeed<C(!new), H>(core: Core<C, H>, start: Moment<C>, stream: seq<LiveItem<H>>, s: Sys<C, H>,
      now: nat)
    requires FeedInv(stream, s) && FrameInv(core, start, stream, s) && s.queue.items != []
    ensures FeedInv(stream, AfterRead(core, stream, s, now))
            && FrameInv(core, start, stream, AfterRead(core, stream, s, now))
  {
    hide ReadOne, FrameInv, AfterRead;
    AfterReadIs(core, stream, s, now);
    ReadQueue(core, s.queue, s.follower, now);
    ReadKeepsFeed(core, start, stream, s, AfterRead(core, stream, s, now));
  }

  lemma ReadItemFollows<C(!new), H>(core: Core<C, H>, start: Moment<C>, stream: seq<LiveItem<H>>, s: Sys<C, H>,
      now: nat)
    requires Honest(core, start, stream) && Inv(core, start, stream, s) && s.queue.items != []
    requires !s.follower.stalled && !s.follower.framePending && !s.follower.mustDiscard
    requires FeedInv(stream, AfterRead(core, stream, s, now))
    ensures FollowInv(core, start, stream, AfterRead(core, stream, s, now))
  {
    hide ReadOne, QueueInv, Honest, Published, FrameInv, AfterRead, FollowInv;
    var t := AfterRead(core, stream, s, now);
    QueueOfFeed(core, stream, s, now);
    ReadFollows(core, start, stream, s, now);
    AfterReadIs(core, stream, s, now);
    HeadIsNext(stream, s);
    if s.queue.items[0].IsSnapshot() {
      SnapshotFollows(core, start, stream, s, t);
    } else {
      SinceGrows(core, start, stream, s, t);
      ReadKeepsFollow(core, start, stream, s, t);
    }
  }

  lemma SinceGrows<C(!new), H>(core: Core<C, H>, start: Moment<C>, stream: seq<LiveItem<H>>, s: Sys<C, H>, t: Sys<C, H>)
    requires FeedInv(stream, s) && FollowInv(core, start, stream, s) && s.queue.items != []
             && !s.queue.items[0].IsSnapshot()
    requires !s.follower.mustDiscard && s.queue.haveSnapshot
    requires t.base == s.base && t.since == s.since + [s.queue.items[0]]
    ensures t.base.Some? && t.ReadTo() <= s.pushed && t.since == stream[s.base.value + 1..t.ReadTo()]
  {
    hide QueueInv, Published;
    var head := s.pushed - |s.queue.items|;
    assert s.queue.items[0] == stream[head];
    assert stream[s.base.value + 1..head] + [stream[head]] == stream[s.base.value + 1..head + 1];
  }

  lemma QueueOfFeed<C(!new), H>(core: Core<C, H>, stream: seq<LiveItem<H>>, s: Sys<C, H>, now: nat)
    requires FeedInv(stream, s) && s.queue.items != []
    ensures var r := ReadOne(core, s.queue, s.follower, now).0;
      && r.items == s.queue.items[1..] && r.haveSnapshot == s.queue.haveSnapshot
      && (|s.queue.items| > 1 ==> !s.queue.items[1..][0].IsSnapshot())
  {
    ReadQueue(core, s.queue, s.follower, now);
    NoSnapshotSecond(s.queue);
  }

  lemma HeadIsNext<C(!new), H>(stream: seq<LiveItem<H>>, s: Sys<C, H>)
    requires FeedInv(stream, s) && s.queue.items != []
    ensures s.queue.items[0] == stream[s.pushed - |s.queue.items|] && s.queue.haveSnapshot
  {
  }

  lemma SnapshotFollows<C(!new), H>(core: Core<C, H>, start: Moment<C>, stream: seq<LiveItem<H>>, s: Sys<C, H>,
      t: Sys<C, H>)
    requires FeedInv(stream, s) && FeedInv(stream, t) && s.queue.items != [] && s.queue.items[0].IsSnapshot()
    requires s.queue.items[0] == stream[s.pushed - |s.queue.items|] && t.queue.items == s.queue.items[1..]
             && t.pushed == s.pushed
    requires |s.queue.items| > 1 ==> !t.queue.items[0].IsSnapshot()
    requires t.base == (if t.follower.mustDiscard then None else Some(s.pushed - |s.queue.items|)) && t.since == []
    requires !t.follower.framePending && t.follower.hashMismatches == 0
    requires !t.follower.mustDiscard ==>
      Moment(t.follower.console, t.follower.totalFrames) == Published(core, start, stream, s.pushed - |s.queue.items|)
    ensures FollowInv(core, start, stream, t)
  {
    var head := s.pushed - |s.queue.items|;
    assert Published(core, start, stream, head + 1) == Published(core, start, stream, head);
  }

  lemma ReadKeepsFollow<C(!new), H>(core: Core<C, H>, start: Moment<C>, stream: seq<LiveItem<H>>, s: Sys<C, H>,
      t: Sys<C, H>)
    requires FeedInv(stream, s) && FeedInv(stream, t) && FollowInv(core, start, stream, s) && s.queue.items != []
    requires t.queue.items == s.queue.items[1..] && t.pushed == s.pushed && t.base == s.base
             && t.since == s.since + [s.queue.items[0]]
    requires s.queue.haveSnapshot && !s.follower.mustDiscard && !s.follower.framePending
             && !s.queue.items[0].IsSnapshot()
    requires t.since == stream[s.base.value + 1..t.ReadTo()] && !t.follower.mustDiscard
             && t.follower.hashMismatches == 0
    requires t.follower.framePending == s.queue.items[0].IsNextFrame()
    requires Moment(t.follower.console, t.follower.totalFrames)
             == Published(core, start, stream, if t.follower.framePending then t.ReadTo() - 1 else t.ReadTo())
    ensures FollowInv(core, start, stream, t)
  {
    hide QueueInv, Published;
  }

  lemma NextKeepsInv<C(!new), H>(core: Core<C, H>, start: Moment<C>, stream: seq<LiveItem<H>>, s: Sys<C, H>,
      action: Action)
    requires Honest(core, start, stream) && Inv(core, start, stream, s)
    ensures Inv(core, start, stream, Next(core, stream, s, action))
  {
    hide Push, ReadOne, Published, FollowInv, FrameInv, FeedInv, Honest;
    match action
    case Feed(now) => FeedKeepsInv(core, start, stream, s, now);
    case Read(now) => ReadKeepsInv(core, start, stream, s, now);
    case Emulate => EmulateFollows(core, start, stream, s);
    case Discard(now) => DiscardKeepsInv(core, start, stream, s, now);
    case Ask(reason, now) => SameItemsKeepInv(core, start, stream, s, Next(core, stream, s, action));
    case EndOfStream => SameItemsKeepInv(core, start, stream, s, Next(core, stream, s, action));
  }

  lemma SameItemsKeepInv<C(!new), H>(core: Core<C, H>, start: Moment<C>, stream: seq<LiveItem<H>>, s: Sys<C, H>,
      t: Sys<C, H>)
    requires Inv(core, start, stream, s)
    requires t == s.(queue := s.queue.(requestAllowedAt := t.queue.requestAllowedAt, ended := t.queue.ended,
                                       traffic := t.queue.traffic))
    ensures Inv(core, start, stream, t)
  {
    hide FrameCount, Published;
  }

  lemma DiscardKeepsInv<C(!new), H>(core: Core<C, H>, start: Moment<C>, stream: seq<LiveItem<H>>, s: Sys<C, H>,
      now: nat)
    requires Inv(core, start, stream, s)
    ensures Inv(core, start, stream, Next(core, stream, s, Discard(now)))
  {
  }

  lemma EmulateFollows<C(!new), H>(core: Core<C, H>, start: Moment<C>, stream: seq<LiveItem<H>>, s: Sys<C, H>)
    requires Inv(core, start, stream, s)
    ensures Inv(core, start, stream, Next(core, stream, s, Emulate))
    ensures s.follower.framePending ==>
      && s.base.Some? && 0 < s.ReadTo() <= |stream| && stream[s.ReadTo() - 1].IsNextFrame()
      && var f := RunFrame(core, s.follower);
         Moment(f.console, f.totalFrames) == Published(core, start, stream, s.ReadTo())
  {
    if s.follower.framePending { assert stream[s.ReadTo() - 1] == s.since[|s.since| - 1]; }
  }

  function Begin<C, H>(console: C, totalFrames: nat): Sys<C, H>
  {
    Sys(NewQueue(), NewFollower(console, totalFrames), 0, None, [])
  }

  lemma NextKeepsFeed<C(!new), H>(core: Core<C, H>, stream: seq<LiveItem<H>>, s: Sys<C, H>, action: Action)
    requires FeedInv(stream, s)
    ensures FeedInv(stream, Next(core, stream, s, action))
  {
    hide FrameCount, ReadOne;
    NoFrames<H>();
    if action.Feed? && s.pushed < |stream| {
      FeedKeepsFeed(stream, s, Next(core, stream, s, action), action.now);
    } else if action.Read? {
      ReadQueue(core, s.queue, s.follower, action.now);
    }
  }

  /** A run: any interleaving of what arrives, what is read, what fails and what is asked for. */
  ghost function RunFrom<C(!new), H>(core: Core<C, H>, stream: seq<LiveItem<H>>, from: Sys<C, H>,
      actions: seq<Action>): (s: Sys<C, H>)
    requires FeedInv(stream, from)
    ensures FeedInv(stream, s)
    decreases |actions|
  {
    if actions == [] then from
    else
      var before := RunFrom(core, stream, from, actions[..|actions| - 1]);
      NextKeepsFeed(core, stream, before, actions[|actions| - 1]);
      Next(core, stream, before, actions[|actions| - 1])
  }

  lemma {:induction false} RunKeepsInv<C(!new), H>(core: Core<C, H>, start: Moment<C>, stream: seq<LiveItem<H>>,
      from: Sys<C, H>, actions: seq<Action>)
    requires Honest(core, start, stream) && Inv(core, start, stream, from)
    ensures Inv(core, start, stream, RunFrom(core, stream, from, actions))
    decreases |actions|
  {
    if actions != [] {
      hide FrameInv, FollowInv, Honest, Next;
      RunKeepsInv(core, start, stream, from, actions[..|actions| - 1]);
      NextKeepsInv(core, start, stream, RunFrom(core, stream, from, actions[..|actions| - 1]), actions[|actions| - 1]);
    }
  }

  lemma BeginIsFeed<C(!new), H>(stream: seq<LiveItem<H>>, console: C, totalFrames: nat)
    ensures FeedInv(stream, Begin<C, H>(console, totalFrames))
  {
    NoFrames<H>();
  }

  /** A run from the moment the follower attaches, whatever its console holds then. */
  ghost function RunAll<C(!new), H>(core: Core<C, H>, stream: seq<LiveItem<H>>, console: C, totalFrames: nat,
      actions: seq<Action>): (s: Sys<C, H>)
    ensures FeedInv(stream, s)
  {
    BeginIsFeed(stream, console, totalFrames);
    RunFrom(core, stream, Begin(console, totalFrames), actions)
  }

  lemma RunAllKeepsInv<C(!new), H>(core: Core<C, H>, start: Moment<C>, stream: seq<LiveItem<H>>, console: C,
      totalFrames: nat, actions: seq<Action>)
    requires Honest(core, start, stream)
    ensures Inv(core, start, stream, RunAll(core, stream, console, totalFrames, actions))
  {
    hide FrameCount, RunFrom;
    BeginIsFeed(stream, console, totalFrames);
    RunKeepsInv(core, start, stream, Begin(console, totalFrames), actions);
  }

  // ---- The core's own loop ---------------------------------------------------------------------

  lemma {:induction false} RunsJoin<C(!new), H>(core: Core<C, H>, stream: seq<LiveItem<H>>, s: Sys<C, H>,
      first: seq<Action>, then_: seq<Action>)
    requires FeedInv(stream, s)
    ensures RunFrom(core, stream, s, first + then_) == RunFrom(core, stream, RunFrom(core, stream, s, first), then_)
    decreases |then_|
  {
    if then_ == [] {
      assert first + then_ == first;
    } else {
      assert (first + then_)[..|first + then_| - 1] == first + then_[..|then_| - 1];
      RunsJoin(core, stream, s, first, then_[..|then_| - 1]);
    }
  }

  lemma SingleRun<C(!new), H>(core: Core<C, H>, stream: seq<LiveItem<H>>, s: Sys<C, H>, action: Action)
    requires FeedInv(stream, s)
    ensures RunFrom(core, stream, s, [action]) == Next(core, stream, s, action)
  {
    assert [action][..0] == [];
  }

  /** Reading up to the next frame marker is a run of the system: everything that holds in every
      run holds between any two calls. */
  lemma {:induction false} ReadFrameIsARun<C(!new), H>(core: Core<C, H>, start: Moment<C>, stream: seq<LiveItem<H>>,
      s: Sys<C, H>, now: nat) returns (actions: seq<Action>)
    requires Honest(core, start, stream) && Inv(core, start, stream, s)
    requires !s.follower.stalled && !s.follower.framePending && !s.follower.mustDiscard
    ensures var t := RunFrom(core, stream, s, actions);
      (t.queue, t.follower) == ReadFrame(core, s.queue, s.follower, now)
    decreases |s.queue.items|
  {
    hide Inv, Honest, FeedInv;
    InvIsFeed(core, start, stream, s);
    QueueIsSound(stream, s);
    SingleRun(core, stream, s, Read(now));
    NextKeepsInv(core, start, stream, s, Read(now));
    InvIsFeed(core, start, stream, Next(core, stream, s, Read(now)));
    ReadOneKeepsQueueInv(core, s.queue, s.follower, now);
    var t := Next(core, stream, s, Read(now));
    actions := [Read(now)];
    if s.queue.items != [] {
      if t.follower.mustDiscard {
        NextKeepsInv(core, start, stream, t, Discard(now));
        InvIsFeed(core, start, stream, Next(core, stream, t, Discard(now)));
        SingleRun(core, stream, t, Discard(now));
        var u := Next(core, stream, t, Discard(now));
        ReadDoesNotStall(core, s.queue, s.follower, now);
        var rest := ReadFrameIsARun(core, start, stream, u, now);
        RunsJoin(core, stream, s, [Read(now)], [Discard(now)]);
        RunsJoin(core, stream, s, [Read(now)] + [Discard(now)], rest);
        actions := [Read(now)] + [Discard(now)] + rest;
      } else if !s.queue.items[0].IsNextFrame() {
        ReadDoesNotStall(core, s.queue, s.follower, now);
        var rest := ReadFrameIsARun(core, start, stream, t, now);
        RunsJoin(core, stream, s, [Read(now)], rest);
        actions := [Read(now)] + rest;
      }
    }
  }

  lemma InvIsFeed<C(!new), H>(core: Core<C, H>, start: Moment<C>, stream: seq<LiveItem<H>>, s: Sys<C, H>)
    requires Inv(core, start, stream, s)
    ensures FeedInv(stream, s)
  {
  }

  lemma QueueIsSound<C(!new), H>(stream: seq<LiveItem<H>>, s: Sys<C, H>)
    requires FeedInv(stream, s)
    ensures QueueInv(s.queue)
  {
  }

  lemma ReadDoesNotStall<C, H>(core: Core<C, H>, q: Queue<H>, f: Follower<C>, now: nat)
    requires QueueInv(q) && q.items != [] && !f.stalled && !f.framePending && !f.mustDiscard
    ensures var g := ReadOne(core, q, f, now).1;
      && !g.stalled && (q.items[0].IsNextFrame() <==> g.framePending)
      && (g.mustDiscard ==> q.items[0].IsSnapshot())
  {
  }

  // ---- The results -----------------------------------------------------------------------------

  /** In every run: the items read since the last snapshot that loaded are exactly what the
      publisher sent right after it, nothing missing and nothing twice; the console is the
      publisher's at that point; and no hash of the publisher's was ever reported as differing. */
  lemma FollowerRefinesPublisher<C(!new), H>(core: Core<C, H>, start: Moment<C>, stream: seq<LiveItem<H>>, console: C,
      totalFrames: nat, actions: seq<Action>)
    requires Honest(core, start, stream)
    ensures var s := RunAll(core, stream, console, totalFrames, actions);
      && s.follower.hashMismatches == 0
      && (s.base.Some? ==>
            && s.ReadTo() <= s.pushed <= |stream| && stream[s.base.value].IsSnapshot()
            && s.since == stream[s.base.value + 1..s.ReadTo()]
            && (!s.follower.framePending ==>
                  Moment(s.follower.console, s.follower.totalFrames) == Published(core, start, stream, s.ReadTo())))
  {
    hide RunAll, Honest, FeedInv, FrameInv;
    RunAllKeepsInv(core, start, stream, console, totalFrames, actions);
    InvIsFeed(core, start, stream, RunAll(core, stream, console, totalFrames, actions));
    ReadWithin(core, start, stream, RunAll(core, stream, console, totalFrames, actions));
  }

  lemma ReadWithin<C(!new), H>(core: Core<C, H>, start: Moment<C>, stream: seq<LiveItem<H>>, s: Sys<C, H>)
    requires Inv(core, start, stream, s)
    ensures s.pushed <= |stream|
    ensures s.base.Some? ==>
            s.ReadTo() <= s.pushed && stream[s.base.value].IsSnapshot()
            && s.since == stream[s.base.value + 1..s.ReadTo()]
  {
  }

  /** Every frame the follower emulates leaves it exactly where the publisher was after the frame
      marker it had read. */
  lemma EveryFrameIsThePublishers<C(!new), H>(core: Core<C, H>, start: Moment<C>, stream: seq<LiveItem<H>>, console: C,
      totalFrames: nat, actions: seq<Action>)
    requires Honest(core, start, stream)
    requires RunAll(core, stream, console, totalFrames, actions).follower.framePending
    ensures var s := RunAll(core, stream, console, totalFrames, actions);
      var t := Next(core, stream, s, Emulate);
      && s.base.Some? && 0 < s.ReadTo() <= |stream| && stream[s.ReadTo() - 1].IsNextFrame()
      && Moment(t.follower.console, t.follower.totalFrames) == Published(core, start, stream, s.ReadTo())
  {
    var s := RunAll(core, stream, console, totalFrames, actions);
    RunAllKeepsInv(core, start, stream, console, totalFrames, actions);
    EmulateFollows(core, start, stream, s);
  }

  /** The frame the reader is at: the head snapshot's, or the one its console has reached (counting
      a frame that is read and not yet run). */
  function ReaderFrame<C, H>(s: Sys<C, H>): nat
  {
    if s.queue.items != [] && s.queue.items[0].IsSnapshot() then s.queue.items[0].packet.frame
    else s.follower.totalFrames + if s.follower.framePending then 1 else 0
  }

  lemma {:induction false} FramesBetween<C, H>(core: Core<C, H>, start: Moment<C>, stream: seq<LiveItem<H>>, i: nat,
      j: nat)
    requires i <= j <= |stream|
    ensures Published(core, start, stream, j).frame
            == Published(core, start, stream, i).frame + FrameCount(stream[i..j])
    decreases j
  {
    if i < j {
      FramesBetween(core, start, stream, i, j - 1);
      assert stream[i..j][..j - 1 - i] == stream[i..j - 1];
    }
  }

  /** The queue's counters are right in every run: at most 1200 frames queued, counted exactly; a
      snapshot only at the head; nothing without one; and the newest frame less the queued ones is
      the frame the reader is at. */
  lemma QueueCountsAreRight<C(!new), H>(core: Core<C, H>, start: Moment<C>, stream: seq<LiveItem<H>>, console: C,
      totalFrames: nat, actions: seq<Action>)
    requires Honest(core, start, stream)
    ensures var s := RunAll(core, stream, console, totalFrames, actions);
      && s.queue.framesQueued == FrameCount(s.queue.items) <= MAX_QUEUED_FRAMES
      && (forall i :: 0 < i < |s.queue.items| ==> !s.queue.items[i].IsSnapshot())
      && (s.queue.items != [] ==> s.queue.haveSnapshot)
      && (s.queue.haveSnapshot && !s.follower.mustDiscard ==>
          s.queue.newestFrame - s.queue.framesQueued == ReaderFrame(s))
  {
    var s := RunAll(core, stream, console, totalFrames, actions);
    RunAllKeepsInv(core, start, stream, console, totalFrames, actions);
    CountsOf(core, start, stream, s);
  }

  lemma CountsOf<C(!new), H>(core: Core<C, H>, start: Moment<C>, stream: seq<LiveItem<H>>, s: Sys<C, H>)
    requires Honest(core, start, stream) && Inv(core, start, stream, s)
    ensures s.queue.haveSnapshot && !s.follower.mustDiscard ==>
            s.queue.newestFrame - s.queue.framesQueued == ReaderFrame(s)
  {
    hide Published;
    var head := s.pushed - |s.queue.items|;
    FramesBetween(core, start, stream, head, s.pushed);
    if s.queue.items != [] && s.queue.items[0].IsSnapshot() {
      assert HonestItem(core, Published(core, start, stream, head), stream[head]);
    } else if s.queue.haveSnapshot && !s.follower.mustDiscard && s.follower.framePending {
      assert stream[s.ReadTo() - 1] == s.since[|s.since| - 1];
      HonestFrame(core, start, stream, s.ReadTo() - 1);
    }
  }

  // ---- Requests --------------------------------------------------------------------------------

  /** The limiter is armed exactly when a request went out after the last snapshot, and then until
      the interval after it. */
  ghost predicate TrafficInv<H>(q: Queue<H>)
  {
    && Armed(q.traffic, q.requestAllowedAt) && Spaced(q.traffic)
    && (!q.haveSnapshot ==> q.requestAllowedAt.Some? || Snapshot !in q.traffic)
  }

  ghost predicate Armed(traffic: seq<Traffic>, allowedAt: Option<nat>)
  {
    allowedAt == if traffic != [] && traffic[|traffic| - 1].Requested?
    then Some(traffic[|traffic| - 1].at + SNAPSHOT_REQUEST_INTERVAL) else None
  }

  ghost predicate Spaced(traffic: seq<Traffic>)
  {
    forall i :: 0 < i < |traffic| && traffic[i - 1].Requested? && traffic[i].Requested? ==>
      traffic[i].at >= traffic[i - 1].at + SNAPSHOT_REQUEST_INTERVAL
  }

  lemma SpacedGrows(traffic: seq<Traffic>, t: Traffic)
    requires Spaced(traffic)
    requires traffic != [] && traffic[|traffic| - 1].Requested? && t.Requested? ==>
      t.at >= traffic[|traffic| - 1].at + SNAPSHOT_REQUEST_INTERVAL
    ensures Spaced(traffic + [t])
  {
  }

  lemma RequestKeepsTraffic<H>(q: Queue<H>, reason: Reason, now: nat)
    requires Armed(q.traffic, q.requestAllowedAt) && Spaced(q.traffic)
    ensures TrafficInv(RequestSnapshot(q, reason, now)) && RequestSnapshot(q, reason, now).requestAllowedAt.Some?
  {
    hide Spaced;
    if q.requestAllowedAt.None? || now >= q.requestAllowedAt.value {
      SpacedGrows(q.traffic, Requested(reason, now));
    }
  }

  lemma PushKeepsTraffic<H>(q: Queue<H>, item: LiveItem<H>, now: nat)
    requires TrafficInv(q)
    ensures TrafficInv(Push(q, item, now))
  {
    hide RequestSnapshot, FrameCount, Spaced;
    RequestKeepsTraffic(DropAll(q), QueueOverflow, now);
    if item.IsSnapshot() {
      SpacedGrows(q.traffic, Snapshot);
    }
  }

  lemma ReadKeepsTraffic<C, H>(core: Core<C, H>, q: Queue<H>, f: Follower<C>, now: nat)
    requires QueueInv(q) && TrafficInv(q)
    ensures TrafficInv(ReadOne(core, q, f, now).0)
  {
    var rest := Pop(q).0;
    assert TrafficInv(rest);
    RequestKeepsTraffic(rest, HashMismatch, now);
    hide RequestSnapshot, FrameCount, TrafficInv, QueueInv;
  }

  lemma NextKeepsTraffic<C, H>(core: Core<C, H>, stream: seq<LiveItem<H>>, s: Sys<C, H>, action: Action)
    requires FeedInv(stream, s) && TrafficInv(s.queue)
    ensures TrafficInv(Next(core, stream, s, action).queue)
  {
    hide RequestSnapshot, Push, ReadOne, FrameCount, TrafficInv;
    match action
    case Feed(now) =>
      if s.pushed < |stream| {
        PushKeepsTraffic(s.queue, stream[s.pushed], now);
      }
    case Read(now) => ReadKeepsTraffic(core, s.queue, s.follower, now);
    case Discard(now) => DiscardKeepsTraffic(s.queue, now);
    case Ask(reason, now) => AskKeepsTraffic(s.queue, reason, now);
    case Emulate =>
    case EndOfStream => EndingKeepsTraffic(s.queue);
  }

  lemma DiscardKeepsTraffic<H>(q: Queue<H>, now: nat)
    requires TrafficInv(q)
    ensures TrafficInv(DiscardUntilSnapshot(q, LoadFailed, now))
  {
    RequestKeepsTraffic(DropAll(q), LoadFailed, now);
  }

  lemma AskKeepsTraffic<H>(q: Queue<H>, reason: Reason, now: nat)
    requires TrafficInv(q)
    ensures TrafficInv(RequestSnapshot(q, reason, now))
  {
    RequestKeepsTraffic(q, reason, now);
  }

  lemma EndingKeepsTraffic<H>(q: Queue<H>)
    requires TrafficInv(q)
    ensures TrafficInv(q.(ended := true))
  {
  }

  /** In every run: between two snapshots, requests are at least two seconds apart; and whenever
      what followed a snapshot was dropped, a request is outstanding. */
  lemma {:induction false} RequestsAreSpaced<C(!new), H>(core: Core<C, H>, stream: seq<LiveItem<H>>, console: C,
      totalFrames: nat, actions: seq<Action>)
    ensures TrafficInv(RunAll(core, stream, console, totalFrames, actions).queue)
    decreases |actions|
  {
    hide TrafficInv, FeedInv, Next;
    if actions == [] {
      NothingRequested<H>();
    } else {
      RequestsAreSpaced(core, stream, console, totalFrames, actions[..|actions| - 1]);
      NextKeepsTraffic(core, stream, RunAll(core, stream, console, totalFrames, actions[..|actions| - 1]),
                       actions[|actions| - 1]);
    }
  }

  lemma NothingRequested<H>()
    ensures TrafficInv(NewQueue<H>())
  {
  }

  /** Any two requests with no snapshot in between, not just neighbours. */
  lemma {:induction false} SpacedAcross<H>(q: Queue<H>, i: nat, j: nat)
    requires TrafficInv(q) && i < j < |q.traffic| && forall k :: i <= k <= j ==> q.traffic[k].Requested?
    ensures q.traffic[j].at >= q.traffic[i].at + SNAPSHOT_REQUEST_INTERVAL
    decreases j
  {
    if i < j - 1 { SpacedAcross(q, i, j - 1); }
  }
}
