/**
  One end of the link cable: everything a machine keeps while it runs the pair, and what each of
  its operations does to it, as functions on values. `LinkSession` holds the same state in place.
 */
module LinkMachine {
  import opened Wrappers
  import opened LinkGame

  const PAIR_HASH_INTERVAL_FRAMES: nat := 60
  const MAX_INBOX_AHEAD_FRAMES: nat := 600
  const PAIR_HASH_WINDOW: nat := 8
  const MAX_STEPS: nat := 1_000_000

  /** A console's events for one frame as sent, with the sender's pair hash when one was due. */
  datatype LinkFrame<H> = LinkFrame(events: Batch, pairHash: Option<(nat, H)>)

  datatype Failure = PairHashMismatch(frame: nat) | PartnerEnded | Emulator

  datatype Settings = Settings(delay: nat, localIsFirst: bool, localInput: seq<bv8>, partnerInput: seq<bv8>)

  datatype Inbox<H> = Inbox(frames: map<nat, LinkFrame<H>>, applied: nat, newest: nat, ended: bool)

  datatype Machine<P, H> = Machine(
    // the local side
    queue: map<nat, Batch>,
    frame: nat,
    nextSendFrame: nat,
    framePrepared: bool,
    computedHashes: seq<(nat, H)>,
    receivedHashes: seq<(nat, H)>,
    pendingHash: Option<(nat, H)>,
    hashDueAt: Option<nat>,
    firstFrames: nat,
    stalled: bool,
    failure: Option<Failure>,
    // the partner side
    partnerFrame: nat,
    partnerPrepared: bool,
    inbox: Inbox<H>,
    // the two consoles on this machine
    pair: P,
    // what went to the publisher, the events applied since the last pair step, and the pair steps taken
    outbox: seq<(nat, LinkFrame<H>)>,
    begun: Option<Batch>,
    history: seq<StepRecord>,
    // memory writes asked for that are not scheduled yet
    waiting: seq<Event>)

  // ---- Inbox -----------------------------------------------------------------------------------

  function Push<H>(inbox: Inbox<H>, frame: nat, linkFrame: LinkFrame<H>): Inbox<H>
  {
    if frame < inbox.applied || frame > inbox.applied + MAX_INBOX_AHEAD_FRAMES then inbox
    else
      inbox.(frames := inbox.frames[frame := linkFrame], newest := if frame > inbox.newest then frame else inbox.newest)
  }

  function Above<H>(frames: map<nat, LinkFrame<H>>, frame: nat): map<nat, LinkFrame<H>>
  {
    map k | k in frames && k > frame :: frames[k]
  }

  function Take<H>(inbox: Inbox<H>, frame: nat): (Inbox<H>, Option<LinkFrame<H>>)
  {
    if frame in inbox.frames then
      (inbox.(frames := Above(inbox.frames, frame), applied := frame + 1), Some(inbox.frames[frame]))
    else (inbox, None)
  }

  // ---- Pair hashes -----------------------------------------------------------------------------

  function Lookup<H>(hashes: seq<(nat, H)>, frame: nat): Option<H>
  {
    if hashes == [] then None
    else if hashes[0].0 == frame then Some(hashes[0].1)
    else Lookup(hashes[1..], frame)
  }

  function OldestFrame<H>(hashes: seq<(nat, H)>): nat { if hashes == [] then 0 else hashes[0].0 }

  /** The received hashes that stay: not met here yet, and not too old to be met. */
  function Unmatched<H>(received: seq<(nat, H)>, computed: seq<(nat, H)>): seq<(nat, H)>
  {
    if received == [] then []
    else
      (if Lookup(computed, received[0].0).None? && received[0].0 >= OldestFrame(computed) then [received[0]] else [])
      + Unmatched(received[1..], computed)
  }

  /** The first received hash that differs from the one computed here. */
  function FirstMismatch<H(==)>(received: seq<(nat, H)>, computed: seq<(nat, H)>): Option<nat>
  {
    if received == [] then None
    else if Lookup(computed, received[0].0).Some? && Lookup(computed, received[0].0).value != received[0].1
            then Some(received[0].0)
    else FirstMismatch(received[1..], computed)
  }

  function Newest<H>(hashes: seq<(nat, H)>): seq<(nat, H)>
  {
    if |hashes| > PAIR_HASH_WINDOW then hashes[|hashes| - PAIR_HASH_WINDOW..] else hashes
  }

  function FailureOf(mismatch: Option<nat>): Option<Failure>
  {
    match mismatch
    case None => None
    case Some(frame) => Some(PairHashMismatch(frame))
  }

  function MatchHashes<P, H(==)>(m: Machine<P, H>): (Machine<P, H>, Option<Failure>)
  {
    (m.(receivedHashes := Newest(Unmatched(m.receivedHashes, m.computedHashes))),
     FailureOf(FirstMismatch(m.receivedHashes, m.computedHashes)))
  }

  function NoteComputedHash<P, H(==)>(m: Machine<P, H>, frame: nat, hash: H): (Machine<P, H>, Option<Failure>)
  {
    MatchHashes(m.(pendingHash := Some((frame, hash)), computedHashes := Newest(m.computedHashes + [(frame, hash)])))
  }

  function NoteReceivedHash<P, H(==)>(m: Machine<P, H>, pairHash: Option<(nat, H)>): (Machine<P, H>, Option<Failure>)
  {
    match pairHash
    case None => (m, None)
    case Some(received) => MatchHashes(m.(receivedHashes := m.receivedHashes + [received]))
  }

  // ---- Scheduling ------------------------------------------------------------------------------

  function Queued(queue: map<nat, Batch>, frame: nat): Batch { if frame in queue then queue[frame] else [] }

  /** A reset goes first in its frame, anything else last. */
  function Placed(batch: Batch, event: Event): Batch
  {
    if event.ResetConsole? then [event] + batch else batch + [event]
  }

  function Schedule<P, H>(m: Machine<P, H>, event: Event): Machine<P, H>
  {
    m.(queue := m.queue[m.nextSendFrame := Placed(Queued(m.queue, m.nextSendFrame), event)])
  }

  function ScheduleAll<P, H>(m: Machine<P, H>, events: seq<Event>): Machine<P, H>
    decreases |events|
  {
    if events == [] then m else ScheduleAll(Schedule(m, events[0]), events[1..])
  }

  // ---- Plugging in -----------------------------------------------------------------------------

  function Prefill(delay: nat, input: seq<bv8>): map<nat, Batch>
  {
    if delay == 0 then map[] else Prefill(delay - 1, input)[delay - 1 := [ChangeInput(input)]]
  }

  /** The writes asked for while the console was held go on waiting: when they would be scheduled it still
      counts as held. */
  function BeginLink<P, H>(settings: Settings, pair: P, heldWrites: seq<Event>): Machine<P, H>
  {
    Machine(Prefill(settings.delay, settings.localInput), 0, settings.delay, false, [], [], None, None, 0, false, None,
            0, false, Inbox(map[], 0, 0, false), pair, [], None, [], heldWrites)
  }

  /** What the player asks for: a reset is scheduled, a write with all that wait before it. */
  function Ask<P, H>(m: Machine<P, H>, event: Event): Machine<P, H>
  {
    if event.ResetConsole? then Schedule(m, event)
    else ScheduleAll(m.(waiting := []), m.waiting + [event])
  }

  // ---- Running ---------------------------------------------------------------------------------

  datatype Outcome = Ran(frames: nat) | PartnerRan(frames: nat) | Stalled | Failed(failure: Failure)

  function Fail<P, H>(m: Machine<P, H>, failure: Failure): (Machine<P, H>, Outcome)
  {
    (m.(failure := Some(failure)), Failed(failure))
  }

  /** This frame's fresh input joins what was scheduled `delay` frames ahead, and that frame is sent. */
  function SendFresh<P, H>(m: Machine<P, H>, input: seq<bv8>): Machine<P, H>
  {
    var sent := Queued(m.queue, m.nextSendFrame) + [ChangeInput(input)];
    m.(queue := m.queue[m.nextSendFrame := sent],
       outbox := m.outbox + [(m.nextSendFrame, LinkFrame(sent, m.pendingHash))],
       pendingHash := None,
       nextSendFrame := m.nextSendFrame + 1)
  }

  /** The events scheduled for the frame about to run are applied. */
  function ApplyScheduled<P, H>(g: Game<P, H>, settings: Settings, m: Machine<P, H>): Machine<P, H>
  {
    m.(queue := m.queue - {m.frame},
       framePrepared := true,
       begun := if m.frame in m.queue then Some(m.queue[m.frame]) else None,
       pair := ApplyBatch(g, m.pair, settings.localIsFirst, Queued(m.queue, m.frame)))
  }

  /** What happens at a local frame boundary. */
  function PrepareLocal<P, H>(g: Game<P, H>, settings: Settings, m: Machine<P, H>, input: seq<bv8>): Machine<P, H>
  {
    ApplyScheduled(g, settings, SendFresh(m, input))
  }

  datatype PartnerFrame = Ready | Waiting | Ended | Mismatch(failure: Failure)

  /** At a partner frame boundary: the pre-filled input for the first `delay` frames, then what
      arrived in the inbox. */
  function PreparePartner<P, H(==)>(g: Game<P, H>, settings: Settings, m: Machine<P, H>): (Machine<P, H>, PartnerFrame)
  {
    var (inbox, taken) :=
      if m.partnerFrame < settings.delay then (m.inbox, Some(LinkFrame([ChangeInput(settings.partnerInput)], None)))
      else Take(m.inbox, m.partnerFrame);
    match taken
    case None => (m, if m.inbox.ended then Ended else Waiting)
    case Some(linkFrame) =>
      var applied := m.(inbox := inbox, partnerPrepared := true, begun := Some(linkFrame.events),
                        pair := ApplyBatch(g, m.pair, !settings.localIsFirst, linkFrame.events));
      var (noted, failure) := NoteReceivedHash(applied, linkFrame.pairHash);
      match failure
      case None => (noted, Ready)
      case Some(f) => (noted, Mismatch(f))
  }

  /** The first console completed a frame: count it, and mark a pair hash due once a second. */
  function FirstFrameCompleted<P, H>(m: Machine<P, H>): Machine<P, H>
  {
    var n := m.firstFrames + 1;
    m.(firstFrames := n, hashDueAt := if n % PAIR_HASH_INTERVAL_FRAMES == 0 then Some(n) else m.hashDueAt)
  }

  /** Either console completed its frame: the next boundary prepares the next one. */
  function FrameCompleted<P, H>(m: Machine<P, H>, local: bool, frames: nat): Machine<P, H>
  {
    if frames == 0 then m
    else if local then m.(frame := m.frame + frames, framePrepared := false)
    else m.(partnerFrame := m.partnerFrame + frames, partnerPrepared := false)
  }

  /** The bookkeeping after a step of one console. */
  function Stepped<P, H>(m: Machine<P, H>, settings: Settings, local: bool, pair: P, frames: nat): Machine<P, H>
  {
    var who := settings.localIsFirst == local;
    var m1 := FrameCompleted(m.(pair := pair, begun := None,
                                history := m.history + [StepRecord(who, m.begun, frames)]), local, frames);
    if frames > 0 && who then FirstFrameCompleted(m1) else m1
  }

  /** A pair hash that is due is taken right before the first console steps again. */
  function TakeDueHash<P, H(==)>(g: Game<P, H>, m: Machine<P, H>, secondRuns: bool): (Machine<P, H>, Option<Failure>)
  {
    if !secondRuns && m.hashDueAt.Some? then
      NoteComputedHash(m.(hashDueAt := None), m.hashDueAt.value, g.pairHash(m.pair))
    else (m, None)
  }

  /** One step of a prepared console. */
  function StepOne<P, H>(g: Game<P, H>, settings: Settings, m: Machine<P, H>, local: bool): (Machine<P, H>, Outcome)
  {
    match g.step(m.pair, settings.localIsFirst == local)
    case None => Fail(m, Emulator)
    case Some((q, frames)) =>
      var m1 := Stepped(m, settings, local, q, frames);
      if local then (m1.(stalled := false), Ran(frames)) else (m1, PartnerRan(frames))
  }

  /** The local console's turn. `idle` says its step was not due yet and did nothing. */
  function LocalTurn<P, H>(g: Game<P, H>, settings: Settings, m: Machine<P, H>, input: seq<bv8>,
      idle: bool): (Machine<P, H>, Outcome)
  {
    var m1 := if !g.midFrame(m.pair, settings.localIsFirst) && !m.framePrepared then PrepareLocal(g, settings, m, input)
              else m;
    if idle then (m1.(stalled := false), Ran(0)) else StepOne(g, settings, m1, true)
  }

  function PartnerTurn<P, H(==)>(g: Game<P, H>, settings: Settings, m: Machine<P, H>): (Machine<P, H>, Outcome)
  {
    var begins := !g.midFrame(m.pair, !settings.localIsFirst) && !m.partnerPrepared;
    var (m1, ready) := if begins then PreparePartner(g, settings, m) else (m, Ready);
    match ready
    case Waiting => (m1.(stalled := true), Stalled)
    case Ended => Fail(m1, PartnerEnded)
    case Mismatch(failure) => Fail(m1, failure)
    case Ready => StepOne(g, settings, m1, false)
  }

  /** One pass of the loop that runs the pair. */
  function Iterate<P, H(==)>(g: Game<P, H>, settings: Settings, m: Machine<P, H>, input: seq<bv8>,
      idle: bool): (Machine<P, H>, Outcome)
  {
    match SecondRunsNext(g, m.pair)
    case None => Fail(m, Emulator)
    case Some(secondRuns) =>
      var (m1, failure) := TakeDueHash(g, m, secondRuns);
      if failure.Some? then Fail(m1, failure.value)
      else if secondRuns != settings.localIsFirst then LocalTurn(g, settings, m1, input, idle)
      else PartnerTurn(g, settings, m1)
  }

  /** The whole bounded loop: partner steps until the local console has had its turn. */
  function RunLinked<P, H(==)>(g: Game<P, H>, settings: Settings, m: Machine<P, H>, input: seq<bv8>, idle: bool,
      budget: nat): (Machine<P, H>, Outcome)
    decreases budget
  {
    if budget == 0 then Fail(m, Emulator)
    else
      var (m1, outcome) := Iterate(g, settings, m, input, idle);
      if outcome.PartnerRan? then RunLinked(g, settings, m1, input, idle, budget - 1) else (m1, outcome)
  }

  /** A call of it: a session that has failed stays failed. */
  function CallRunLinked<P, H(==)>(g: Game<P, H>, settings: Settings, m: Machine<P, H>, input: seq<bv8>,
      idle: bool): (Machine<P, H>, Outcome)
  {
    match m.failure
    case Some(failure) => (m, Failed(failure))
    case None => RunLinked(g, settings, m, input, idle, MAX_STEPS)
  }
}
