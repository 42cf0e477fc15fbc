# SuperShuckie, verified

A Dafny model of the stateful protocols of SuperShuckie, a multi-console emulator front end, with
proofs of what they promise. Everything is checked by `dafny verify dfyconfig.toml`.

- **The link cable** (`Link*.dfy`). Two machines each run the same pair of consoles. Each sends its
  own events `delay` frames ahead, applies what it scheduled earlier, and takes the other's events
  from an inbox keyed by frame; hashes of the pair are exchanged once a second. The consoles are
  the functions of a `Game`; what the protocol relies on about them is the predicate `Lawful` (one
  step completes at most one frame of the console stepped and leaves the other's place alone;
  events given at a frame boundary move no one's turn) and, for the inbox bound and progress, `Skew` (how far the two frame
  counts of a pair can drift apart, in each direction). `LinkMachine` holds the operations as
  functions, `LinkCable` the same operations on objects, `LinkRun` the system of two machines and
  the messages between them.
- **Following another player's game** (`Live*.dfy`). A bounded queue between a network reader and an
  emulating follower: snapshots supersede the backlog, overflow and failed loads drop it, requests
  for snapshots are rate-limited. The follower refines the publisher.
- **The serial log of a linked Game Boy Advance** (`Serial*.dfy`). A tagged byte log written by
  wrappers around the cable's driver, decoded all or nothing, and played back by a driver that
  answers the game.
- **The memory monitor** (`Monitor*.dfy`). The service at a frame boundary: observe, pause, freeze,
  edit, take the new baseline, hand events over. A write is made at once only by a console at a frame
  boundary that is neither linked nor held for a link (`MonitorWrites`); `MonitorLinked` runs the
  monitor and the link machine together.
- **Save states and discarded geometry of the Nintendo DS** (`ExtraSection.dfy`, `StateLoading.dfy`,
  `StateBuffers.dfy`, `DiscardedGeometry.dfy`). The section appended to every state, the repair of
  the state's length, and the tracker of pictures that lack geometry.
- **Two kernels.** Ring-buffer FIFOs rewritten to a canonical form (`FifoCanonical.dfy`), and dates to
  seconds and back (`Dates.dfy`; section 3.2.1 of ISO 8601:2004).

What changes state in the program is a class here, its methods held to functions on values, and the
theorems are about those functions. Threads appear as atomic steps in any order, a mutex section
being one step; time is a parameter; a lock that is only tried is a parameter saying whether it was
free; hashes are uninterpreted functions. The geometry tracker is for a core that flushes at most
once a frame; `AgreesExactly` says which frames it follows.

Where the code does something else than one would expect, the model follows the code:

- `LinkInbox::push` compares with `applied` before it takes the lock, so a frame can be stored after
  the pair has passed it: the inbox of a hostile peer holds up to 602 frames rather than 601
  (`BoundIsReached`; `TightExactlyWithoutLateStores` says when).
- A computed hash is sent before the next one overwrites it while the two consoles' greatest leads are
  at most 58 frames together; for every larger pair of leads, a skew of 30 frames each way among them,
  one can be lost (`LeadsThatAreSafe`).
- Consecutive changes of the cable's configuration that no logged answer separates are all applied by
  the first query, so a replayed query can differ from the recorded one (`SeatsAreHeardTooEarly`), and
  a configuration that found no room in a full log still counts as logged (`OverflowLosesASeat`);
  `RecordingIsFaithful` says exactly when a reply differs.
- A freeze or an edit on a linked console, or one held or in the middle of a frame, counts as made and is
  answered as written at once, but lands later, or never, if the link ends first (`AnEditCanBeLost`): a
  linked freeze is restored and counted anew every frame until the first write lands, and the monitor
  then reports its own write as a change the game made (`FrozenByteIsReported`; `OwnWritesAreReported`
  says exactly which).
- Writes that waited are made with the next restore or edit at a frame boundary, and can undo a freeze
  that stood (`AWaitingWriteUndoesAFreeze`; `FreezesHold` says exactly when freezes hold).
- `begin_link` means to schedule the writes asked for while the console was held, but they are flushed
  while `link_holding` is still set (link.rs:459 and 471, lib.rs:1352): they wait until the next write
  is asked for on the linked console and go out with that, or are dropped when the link ends
  (`HeldWritesWait`, `TheNextWriteTakesThemAlong`).
- The replay driver stays in for the rest of a frame in which the cable came out, and answers calls that
  no driver answered in the recorded game (`UncabledIsTold`).
- The geometry tracker reads at the end of a frame whether rendering is on, not at the flush: a game that
  switches it in between is misread (`SwitchedRenderingIsMisread`).
- A watch given another way to decode it keeps its old number as baseline (`RedecodedPause`).
- A date before 1970 wraps round in the unsigned setting, and the clock check shows any earlier record
  as 1970-01-01 00:00:00.

## Model

| member | source | states |
|---|---|---|
| `LinkTheorems.Agreement` | supershuckie-core/src/link.rs:535-626 | Whatever the order and repetition of deliveries, the pacing, and the writes and resets asked for: the pair steps either machine has taken are a prefix of one sequence determined by what the two players sent, and after equally many steps both pairs of consoles are the same |
| `LinkTheorems.EveryFrameGetsItsBatch` | supershuckie-core/src/link.rs:695-805 | On both machines alike a console was given, frame by frame, exactly the batches its own machine committed to: the pre-filled input for the first `delay` frames, then what was sent, each of them resets, then writes, then one input |
| `LinkTheorems.ScheduleDiscipline` | supershuckie-core/src/link.rs:695-720 | At every moment the next frame to send is the current one plus `delay` (plus one once the frame is prepared), no frame in between is missing from the queue, and each is queued exactly as it was sent |
| `LinkTheorems.NoFalseAlarm` | supershuckie-core/src/link.rs:577-583 | Two honest machines never report a hash mismatch, and hashes computed on either for the same frame are equal |
| `LinkTheorems.MismatchIsFound` | supershuckie-core/src/link.rs:659-676 | Matching reports a difference exactly when some received hash differs from the remembered one of its frame, and names the first such |
| `LinkTheorems.DivergenceIsNoticed` | supershuckie-core/src/link.rs:647-656 | A differing hash whose frame is still remembered always fails the link, whichever side's hash comes first |
| `LinkTheorems.CallIsARun` | supershuckie-core/src/link.rs:535-626 | A call of the whole bounded loop, on a session that failed before too, is a run of the system, so all of the above holds between any number of calls on both machines |
| `LinkTheorems.HeldWritesWait` | supershuckie-core/src/link.rs:438-471 | However the pair is run: until a write is asked for on the linked console, those asked for while it was held still wait, and no frame it queued or sent has a write |
| `LinkTheorems.HeldWritesAreNotMade` | supershuckie-core/src/link.rs:438-471 | ... so on neither machine is the console given one |
| `LinkTheorems.TheNextWriteTakesThemAlong` | supershuckie-core/src/lib.rs:1356-1364 | In every run the next write asked for is scheduled last in the frame sent next, right after all that waited, and none waits any more |
| `LinkRun.NextKeepsInv` | supershuckie-core/src/link.rs:535-805 | Every single action (a pass of the loop, a user event, a delivery, an end) keeps the invariant of both machines and of what is on its way |
| `LinkProgress.HonestFramesAreKept` | supershuckie-core/src/link.rs:126-136 | While 3 * delay plus the two consoles' greatest leads plus one is at most 600, a frame arriving for the first time is never refused and is held afterwards |
| `LinkProgress.TheOneBehindNeverWaits` | supershuckie-core/src/link.rs:603-615 | The machine that has taken no more pair steps than the other neither waits nor finds the stream ended once what was sent to it has arrived |
| `LinkProgress.NeverBothWaiting` | supershuckie-core/src/link.rs:603-615 | The two machines are never both stalled with nothing on its way |
| `LinkProgress.SomebodySteps` | supershuckie-core/src/link.rs:535-626 | While both are linked, either a sent frame is still undelivered or some machine's next pass takes a pair step, unless a console itself gives up |
| `LinkProgress.RunningMeansStepping` | supershuckie-core/src/link.rs:593-625 | A pass that neither stalls nor fails takes exactly one pair step when it is not idle |
| `LinkHashes.HashesAreSentInTime` | supershuckie-core/src/link.rs:647-651 | With leads of at most 58 frames together, a hash computed before has been sent by the time the next one is due, so none is overwritten |
| `LinkHashesTight.AHashIsLost` | supershuckie-core/src/link.rs:647-651 | For every two leads of 59 or more together, however shared out, and every delay: a lawful pair within those leads and a run of both its machines in which a computed hash is overwritten and never sent |
| `LinkHashesTight.LeadsThatAreSafe` | supershuckie-core/src/link.rs:647-651 | So with any delay every hash is sent in time, in every run of every such pair, exactly when the two leads are at most 58 together |
| `LinkHashesTight.HiccupSkew` | supershuckie-core/src/link.rs:647-651 | The leads of those pairs, in every run whatever the players do |
| `LinkInboxBound.HostilePeerIsBounded` | supershuckie-core/src/link.rs:126-136 | Whatever is pushed, and with the check made before the lock: no frame more than 600 ahead is held, at most one the pair has passed, at most 602 in all |
| `LinkInboxBound.BoundIsReached` | supershuckie-core/src/link.rs:126-136 | A run that reaches 602 frames, the first of them behind the pair |
| `LinkInboxBound.TightExactlyWithoutLateStores` | supershuckie-core/src/link.rs:126-179 | In every run, whatever is pushed: the keys stay in [applied, applied + 600] all along exactly when no frame is stored that the pair has passed between check and store |
| `LinkInboxBound.UninterruptedPushesAreTight` | supershuckie-core/src/link.rs:126-179 | In every run of pushes taken one at a time, takes and the end, whatever is pushed, the keys are in [applied, applied + 600]: at most 601 of them |
| `LinkCable.LinkInbox.Push` | supershuckie-core/src/link.rs:126-136 | The inbox afterwards, for any frame: refused behind what was applied or more than 600 ahead, else stored |
| `LinkCable.LinkInbox.Take` | supershuckie-core/src/link.rs:165-179 | The frame's events when there; it and everything older is gone, and the frame counts as applied |
| `LinkCable.LinkSession.constructor` | supershuckie-core/src/link.rs:429-473 | The session a link begins with: the first `delay` frames queued with the held input, the held writes still waiting |
| `LinkCable.LinkSession.Schedule` | supershuckie-core/src/link.rs:299-306 | Where an event of the player goes: a reset before, anything else after what is scheduled for the next frame to send |
| `LinkCable.LinkSession.EnqueueWrite` | supershuckie-core/src/lib.rs:1356-1364 | A write is scheduled behind all that waited, one after another, and none waits any more |
| `LinkCable.LinkSession.HardReset` | supershuckie-core/src/lib.rs:1396-1408 | A reset is scheduled, and what waits goes on waiting |
| `LinkCable.LinkSession.PrepareLocalFrame` | supershuckie-core/src/link.rs:695-758 | A local frame boundary: the fresh input joins the frame `delay` ahead, that frame is sent with a pending hash, and what was scheduled for this one is applied |
| `LinkCable.LinkSession.PreparePartnerFrame` | supershuckie-core/src/link.rs:763-805 | A partner frame boundary: pre-filled input or what arrived, or waiting, or the end, or a mismatch |
| `LinkCable.LinkSession.MatchHashes` | supershuckie-core/src/link.rs:659-676 | Which received hashes stay, and the first that differs, by one pass over them |
| `LinkCable.LinkSession.NoteComputedHash` | supershuckie-core/src/link.rs:647-656 | A computed hash is pending, is remembered among the last eight, and is matched |
| `LinkCable.LinkSession.FirstFrameCompleted` | supershuckie-core/src/link.rs:637-643 | The first console's frames are counted and a hash is due every sixtieth |
| `LinkCable.LinkSession.FrameCompleted` | supershuckie-core/src/link.rs:809-818 | The frame counter of the console that completed frames moves on and its next boundary prepares again |
| `LinkCable.LinkSession.RunLinked` | supershuckie-core/src/link.rs:535-626 | The whole bounded loop, partner steps first, as the function the theorems are about; a session that failed says so again and does nothing |
| `LiveReplayRun.FollowerRefinesPublisher` | supershuckie-core/src/live_replay.rs:606-732 | For every interleaving of pushes, reads, overflows, failed snapshots and discards: what was read since the last snapshot that loaded is exactly what the publisher sent right after it, the console is the publisher's there, and no honest hash is ever counted as a mismatch |
| `LiveReplayRun.EveryFrameIsThePublishers` | supershuckie-core/src/live_replay.rs:606-643 | Every frame the follower emulates leaves console and frame counter where the publisher's were after the same frame marker |
| `LiveReplayRun.QueueCountsAreRight` | supershuckie-core/src/live_replay.rs:184-217 | In every run the frame count is that of the queued markers and at most 1200, a snapshot is only ever at the head, nothing is kept without one, and the newest frame less the queued ones is the frame the reader is at |
| `LiveReplayRun.RequestsAreSpaced` | supershuckie-core/src/live_replay.rs:144-152 | The limiter is armed exactly when a request went out since the last snapshot, requests with no snapshot between are at least two seconds apart, and a drop leaves one outstanding |
| `LiveReplayRun.SpacedAcross` | supershuckie-core/src/live_replay.rs:144-152 | ... not only neighbouring requests, any two |
| `LiveReplayRun.NextKeepsInv` | supershuckie-core/src/live_replay.rs:184-304 | Every action keeps what is queued a gapless end of what was pushed, and the follower on the publisher's path |
| `LiveReplayRun.ReadFrameIsARun` | supershuckie-core/src/live_replay.rs:606-643 | A call that reads up to the next frame marker is a run of the system |
| `LiveFollower.LiveQueue.PushPacket` | supershuckie-core/src/live_replay.rs:184-217 | The queue after a packet, with overflow and the snapshot that supersedes the backlog |
| `LiveFollower.LiveQueue.Pop` | supershuckie-core/src/live_replay.rs:248-260 | The item taken and the count after it, or waiting, or ended |
| `LiveFollower.LiveQueue.DiscardUntilSnapshot` | supershuckie-core/src/live_replay.rs:297-304 | Everything queued is dropped and a snapshot asked for |
| `LiveFollower.LiveQueue.RequestSnapshot` | supershuckie-core/src/live_replay.rs:144-152 | A request goes out unless one did within the interval and no snapshot came since |
| `LiveFollower.FollowingCore.HandleLiveReplay` | supershuckie-core/src/live_replay.rs:606-643 | The reading loop, up to the next frame marker, as the function the theorems are about |
| `LiveFollower.FollowingCore.ReadItem` | supershuckie-core/src/live_replay.rs:606-643 | One item of it, by its kind, and whether reading stops there |
| `LiveFollower.FollowingCore.ApplyStreamSnapshot` | supershuckie-core/src/live_replay.rs:649-714 | A snapshot that loads puts console and counters where the publisher was; one that does not drops the backlog and asks again |
| `LiveFollower.FollowingCore.CheckSyncHash` | supershuckie-core/src/live_replay.rs:717-732 | Exactly when a hash counts as a mismatch |
| `SerialLog.ParseInvertsEncode` | mgba-rs/interface.cpp:959-1029 | Decoding the bytes of any records gives those records back, signed times intact |
| `SerialLog.OnlyEncodingsParse` | mgba-rs/interface.cpp:959-1029 | A byte string is accepted exactly when it is some records one after another, and then they are the ones returned |
| `SerialLog.LogIsWholeRecords` | mgba-rs/interface.cpp:483-567 | However much is logged, the log is at most 32768 bytes and is whole records: those that fit, in order |
| `SerialLog.EveryLogParses` | mgba-rs/interface.cpp:483-567 | Whatever was logged parses to exactly the records kept |
| `SerialLog.AllKeptWhenItFits` | mgba-rs/interface.cpp:483-488 | Nothing is dropped while everything fits |
| `SerialReplay.RecorderWrites` | mgba-rs/interface.cpp:500-594 | The recorder's log is the records of what happened, a configuration only where it changed |
| `SerialReplay.FrameIsFaithful` | mgba-rs/interface.cpp:756-846 | Within a frame, whether or not its log overflowed: every call that takes an answer and every change the driver makes gets the recorded value when that was logged and otherwise what an absent partner gives, a query the configuration last logged before the next logged answer; the misses are exactly the answers dropped and the calls, queries apart, made without a cable |
| `SerialSession.RecordingIsFaithful` | mgba-rs/interface.cpp:500-1053 | Over a whole recording, plugged and unplugged any number of times, in the middle of a frame or between two, and with logs that overflow: each reply of the replay driver is the recorded one exactly when, for an answer or a change, it was logged (or was what an absent partner gives), for a query, the configuration it saw is the one last logged before the next logged answer, and for a call made without a cable, the driver is out; the misses are counted exactly |
| `SerialSession.SteadyRecordingIsExact` | mgba-rs/interface.cpp:500-831 | While logs fit their limit and with one configuration between any two answers the replies are exactly the recorded ones, but for what is called for without a cable while the driver is in |
| `SerialSession.UncabledIsTold` | supershuckie-core/src/emulator/game_boy_advance.rs:263-274 | What that is told instead: the driver stays in until the frame is over and answers with the configuration last logged, or as a miss |
| `SerialSession.SeatsAreHeardTooEarly` | mgba-rs/interface.cpp:522-526 | A recording with nothing dropped whose first query is told 2 where it was told 1 |
| `SerialSession.ALostSeatIsNeverTold` | mgba-rs/interface.cpp:500-510 | Over any frames that see no other configuration, every query is told the one last logged: so one that found no room in the log is not told until there is another |
| `SerialSession.OverflowLosesASeat` | mgba-rs/interface.cpp:500-510 | A recording whose full log drops a configuration: the query of that frame and that of the next are told the old one, with no miss counted |
| `SerialSession.Accounting` | mgba-rs/interface.cpp:756-1053 | Whatever a game asks and whatever logs are fed: every answer fed is matched, discarded or pending, in order and once; misses are unanswered calls and discarded answers; a queued log finds the last configuration of all earlier ones; a bad log changes nothing |
| `SerialSession.EveryAnswerIsAccountedFor` | mgba-rs/interface.cpp:756-1053 | The balance behind it, kept by every call, event and log |
| `SerialDrivers.LinkRecorder.Attach` | mgba-rs/interface.cpp:628-671 | Plugging in clears the log, logs it and the configuration then |
| `SerialDrivers.LinkRecorder.ConnectedDevices` | mgba-rs/interface.cpp:522-526 | The game is told the driver's answer, and a change of configuration is logged first |
| `SerialDrivers.LinkRecorder.DeviceId` | mgba-rs/interface.cpp:528-532 | The same for the other query |
| `SerialDrivers.LinkRecorder.LogSetMode` | mgba-rs/interface.cpp:512-520 | The registers after the driver set its mode go in whole or not at all |
| `SerialDrivers.LinkRecorder.LogStart` | mgba-rs/interface.cpp:534-539 | Whether the transfer was started |
| `SerialDrivers.LinkRecorder.LogNormal8` | mgba-rs/interface.cpp:552-557 | The byte delivered |
| `SerialDrivers.LinkRecorder.LogNormal32` | mgba-rs/interface.cpp:559-567 | The word delivered goes in whole or not at all |
| `SerialDrivers.LinkRecorder.Detach` | mgba-rs/interface.cpp:676-690 | Pulling the cable is logged |
| `SerialDrivers.LinkRecorder.LogMultiplayer` | mgba-rs/interface.cpp:541-550 | The four words go in whole or not at all |
| `SerialDrivers.LinkRecorder.LogEvent` | mgba-rs/interface.cpp:571-594 | A change the driver made is logged exactly when a register changed or the transfer was (re)scheduled, with its time and the completion's relative to the frame |
| `SerialDrivers.LinkRecorder.TakeLog` | mgba-rs/interface.cpp:727-741 | The log is handed over and cleared only when the buffer is big enough; the size needed either way |
| `SerialDrivers.LogReader.U8` | mgba-rs/interface.cpp:938-942 | A byte, or zero and a failure past the end |
| `SerialDrivers.LogReader.ReadFields` | mgba-rs/interface.cpp:971-1022 | One record's fields, failing exactly when the record is not there in full or its tag is unknown |
| `SerialDrivers.ReplayDriver.ParseLog` | mgba-rs/interface.cpp:959-1029 | The parsing loop accepts exactly what the decoder does and yields its sync entries, its changes and whether the cable came out |
| `SerialDrivers.ReplayDriver.ApplySeats` | mgba-rs/interface.cpp:766-772 | Every configuration at the head is applied |
| `SerialDrivers.ReplayDriver.Next` | mgba-rs/interface.cpp:756-763 | The head entry when it has the tag, else a miss that consumes nothing |
| `SerialDrivers.ReplayDriver.SetModeCall` | mgba-rs/interface.cpp:774-781 | The registers as recorded, or unchanged on a miss |
| `SerialDrivers.ReplayDriver.ConnectedDevices` | mgba-rs/interface.cpp:783-787 | The configuration at the head is applied, then answered |
| `SerialDrivers.ReplayDriver.DeviceId` | mgba-rs/interface.cpp:789-793 | The same for the other query |
| `SerialDrivers.ReplayDriver.StartCall` | mgba-rs/interface.cpp:795-802 | As recorded, or not started on a miss |
| `SerialDrivers.ReplayDriver.FinishNormal8` | mgba-rs/interface.cpp:815-822 | The byte recorded, or all ones on a miss |
| `SerialDrivers.ReplayDriver.FinishNormal32` | mgba-rs/interface.cpp:824-831 | The word recorded, or all ones on a miss |
| `SerialDrivers.ReplayDriver.Discard` | mgba-rs/interface.cpp:1037-1049 | What the game never asked for: configurations still count, answers are misses |
| `SerialDrivers.ReplayDriver.Detach` | mgba-rs/interface.cpp:910-922 | Coming out drops what is left |
| `SerialDrivers.ReplayDriver.FinishMultiplayer` | mgba-rs/interface.cpp:804-813 | The four words recorded, or all ones on a miss |
| `SerialDrivers.ReplayDriver.AsyncEvent` | mgba-rs/interface.cpp:836-849 | The next recorded change |
| `SerialDrivers.ReplayDriver.Queue` | mgba-rs/interface.cpp:959-1054 | The driver after a frame's log, and the code returned |
| `SerialDrivers.ReplayDriver.Attach` | mgba-rs/interface.cpp:864-908 | Going in starts afresh |
| `MonitorTheorems.ReportsAreExact` | supershuckie-core/src/memory_monitor.rs:805-966 | In every run a change is generated exactly when, at a new frame in which memory was not replaced, a watch with a baseline can be read and reads something else than memory held when the monitor last left it: never for a jump, nor for a write already made then |
| `MonitorTheorems.OwnWritesAreReported` | supershuckie-core/src/memory_monitor.rs:805-878 | Between two looks with memory left alone by the game, the second reports exactly those of the deferred writes made since (linked, held or mid-frame) that a watch can tell, as changes of the game |
| `MonitorTheorems.WhatAServiceOwes` | supershuckie-core/src/lib.rs:1345-1385 | Which writes those can be: at a frame boundary of its own with nothing owed a console owes nothing after a service either; otherwise memory is left alone and what was owed is still owed |
| `MonitorTheorems.OwnWritesMadeAtOnceAreSilent` | supershuckie-core/src/memory_monitor.rs:805-878 | So after a service at such a boundary nothing of its own is ever reported |
| `MonitorTheorems.TwoBoundaries` | supershuckie-core/src/memory_monitor.rs:805-878 | From one look to the next with the same request: every watch's baseline is what memory held as the first service left it, its deferred writes not made, readable exactly when it was, and the second reports by it |
| `MonitorTheorems.PausesWhenAConditionFires` | supershuckie-core/src/memory_monitor.rs:805-966 | A service asks for a pause exactly when it looks at a new frame that memory was not replaced in and some watch that changed fires its condition |
| `MonitorTheorems.RedecodedBaseline` | supershuckie-core/src/memory_monitor.rs:895-903 | Among any watches, one kept but to be decoded another way pauses where it would not have, had it been read the new way, exactly when its bytes changed and its condition fires from the old number and not from the new |
| `MonitorTheorems.RedecodedPause` | supershuckie-core/src/memory_monitor.rs:895-903 | A concrete watch that therefore pauses though its value was already below the limit |
| `MonitorTheorems.EventsAreConserved` | supershuckie-core/src/memory_monitor.rs:573-580 | In every run what was drained, then the ring, then what is still local are the events generated, in order, but for those dropped, which are counted once; the ring holds at most 8192 |
| `MonitorTheorems.NextKeepsInv` | supershuckie-core/src/memory_monitor.rs:805-1121 | Every service, request, edit and drain keeps both |
| `MonitorFreezes.FreezesHold` | supershuckie-core/src/memory_monitor.rs:968-985 | Freezes at plain addresses that do not overlap, on any console: each is counted exactly if it had to be restored, by memory as found up to the first restore and as the waiting writes leave it after that; linked, held or mid-frame memory is as it was and the restores are owed. All that can be held are, and a second pass writes nothing, exactly when nothing had to be restored, or writes are made at once and the waiting ones leave the freezes before the first restore as they stood |
| `MonitorFreezes.AWaitingWriteUndoesAFreeze` | supershuckie-core/src/lib.rs:1345-1385 | A concrete pass whose restore makes an older waiting write first, which undoes a freeze that stood |
| `MonitorFreezes.FreezesTouchNothingElse` | supershuckie-core/src/memory_monitor.rs:968-985 | Memory no freeze covers is as the game left it, or, after a restore made at once, as the writes that waited make it |
| `MonitorFreezes.ClampIsWithinLimits` | supershuckie-core/src/memory_monitor.rs:306-331 | A request taken is within the limits on watches and freezes, and one within them is taken as it is |
| `MonitorFreezes.TakingARequestKeepsCounts` | supershuckie-core/src/memory_monitor.rs:905-908 | A freeze keeps its restore count across a new request |
| `MonitorTheorems.KeptBaseline` | supershuckie-core/src/memory_monitor.rs:895-903 | A watch keeps the baseline of the first trace with its id, path and length |
| `MonitorWrites.WriteIsMadeOrOwed` | supershuckie-core/src/lib.rs:932-939 | A write that is taken is made at once, after all that waited, or joins what is owed with memory as it was: by whether the console is at a frame boundary, neither held nor linked |
| `MonitorEdits.EditsStand` | supershuckie-core/src/memory_monitor.rs:987-1021 | An edit answered as written that no later one overlaps is in memory when the edits are over exactly when: put off, it was there before; at once, it had to be made, or was there and nothing was made after it or the writes that waited leave it there |
| `MonitorEdits.ALaterEditOverwrites` | supershuckie-core/src/memory_monitor.rs:987-1021 | Of two edits of one range made at once, the earlier is in memory exactly when both say the same |
| `MonitorEdits.AnEditCanBeLost` | supershuckie-core/src/link.rs:478-491 | An edit of a linked console answered as written, and the link then ended: never in memory, and nothing owed that would put it there |
| `MonitorLinked.FrozenByteIsReported` | supershuckie-core/src/lib.rs:1356-1364 | A linked console, for any delay and byte: for `delay` + 1 frames every service counts a restore with memory unchanged, and then the monitor reports the frozen value as a change of the game |
| `MonitorMemory.WriteElsewhere` | supershuckie-core/src/emulator.rs:81-106 | A write leaves every range apart from it as it was, whatever the regions |
| `MonitorMemory.WriteIsRead` | supershuckie-core/src/emulator.rs:95-106 | A write to mapped memory is read back |
| `MonitorMemory.Follow` | supershuckie-core/src/memory_monitor.rs:99-106 | A path is followed pointer by pointer, wrapping at 32 bits, or fails at the first unmapped one |
| `MonitorValues.PackTellsApart` | supershuckie-core/src/memory_monitor.rs:700-709 | Values of up to eight bytes are the same packed exactly when they are the same |
| `MonitorValues.DecodeFits` | supershuckie-core/src/memory_monitor.rs:140-181 | Every value decodes to a 64-bit number; only decimal ones can fail to |
| `MonitorValues.PausesOncePerEntry` | supershuckie-core/src/memory_monitor.rs:207-223 | A condition about one value fires as often as the value comes to meet it |
| `MonitorService.MonitoredCore.FlushWrites` | supershuckie-core/src/lib.rs:1345-1385 | What waits is handed to the link, or made, or goes on waiting, by the guards in that order |
| `MonitorService.MonitoredCore.EnqueueWrite` | supershuckie-core/src/lib.rs:932-939 | A write is taken, behind those waiting, unless a replay plays |
| `MonitorService.MonitoredCore.WriteIfDifferent` | supershuckie-core/src/lib.rs:944-960 | A write is taken only where memory is mapped and differs, and never during playback |
| `MonitorService.MonitorLocal.RunTraces` | supershuckie-core/src/memory_monitor.rs:928-966 | The loop over the watches: their new baselines, what is posted, what finds no room, whether to pause |
| `MonitorService.MonitorLocal.ApplyFreezes` | supershuckie-core/src/memory_monitor.rs:968-985 | The loop over the freezes: the console with its memory and deferred writes, counts and flags after it |
| `MonitorService.MonitorLocal.ApplyPendingEdits` | supershuckie-core/src/memory_monitor.rs:987-1021 | The loop over the edits: the console after it, writes made or deferred, and the answer each gets |
| `MonitorService.MonitorLocal.TryFlushEvents` | supershuckie-core/src/memory_monitor.rs:1093-1121 | When events are handed over, and the ring after it |
| `MonitorService.MonitorLocal.PullRequest` | supershuckie-core/src/memory_monitor.rs:880-910 | The request taken, with the baselines and counts it keeps |
| `MonitorService.MonitorLocal.Serve` | supershuckie-core/src/memory_monitor.rs:805-878 | The whole service, in its fixed order, as the function the theorems are about |
| `MonitorService.MonitorShared.SetRequest` | supershuckie-core/src/memory_monitor.rs:539-544 | The request and its generation |
| `MonitorService.MonitorShared.Push` | supershuckie-core/src/memory_monitor.rs:583-586 | An edit is queued last |
| `MonitorService.MonitorShared.Discard` | supershuckie-core/src/memory_monitor.rs:590-592 | No edit is left |
| `MonitorService.MonitorLocal.PullEdits` | supershuckie-core/src/memory_monitor.rs:912-924 | Edits taken go behind those pending, once |
| `MonitorService.MonitorLocal.ApplyOne` | supershuckie-core/src/memory_monitor.rs:990-1012 | What becomes of one edit, by the first thing that stands in its way; one whose write is only deferred is answered as written |
| `MonitorService.MonitorShared.Drain` | supershuckie-core/src/memory_monitor.rs:573-580 | What there was and how many were dropped, the ring empty afterwards |
| `StateLoading.AppendedIsSound` | melonds-rs/interface.cpp:183-260 | For a state whose sections tile it, none of them SHUK: with the section appended the length is right, it parses to what was saved, every other section is found where it was, and nothing before it changed but the length |
| `StateLoading.ExtrasComeBack` | melonds-rs/interface.cpp:271-290 | Loading puts back the registers, the access point with a sane packet length, and the settings area exactly on a console with the same firmware layout |
| `StateLoading.LoadLeavesTheBuffer` | melonds-rs/interface.cpp:319-343 | Whatever melonDS writes into the length field, the buffer is as it was after a load |
| `StateLoading.DamagedLengthLoadsTheSame` | melonds-rs/interface.cpp:303-343 | A state of ours with its right length, or with the length an earlier load left in it, is given to melonDS as the same bytes and loads the same console |
| `StateLoading.LoadTwice` | melonds-rs/interface.cpp:271-343 | The extras are settled by the first load: loading again from the buffer it left, whatever melonDS wrote there, brings back the same |
| `ExtraSection.AccessPointRoundTrip` | melonds-rs/interface.cpp:146-168 | The access point comes back as it was exactly when its packet length is in 0..2048, otherwise with none |
| `ExtraSection.PayloadRoundTrip` | melonds-rs/interface.cpp:183-260 | The payload reads back as what it was made of, whatever a later version appends |
| `StateBuffers.AppendExtraSection` | melonds-rs/interface.cpp:183-216 | The buffer after the section is written through the running pointer, or nothing when it does not fit |
| `StateBuffers.FindStateSection` | melonds-rs/interface.cpp:219-233 | The first section of that name, by walking the lengths |
| `StateBuffers.TrailingExtraSection` | melonds-rs/interface.cpp:293-306 | A section of that name that ends the state |
| `StateBuffers.LoadState` | melonds-rs/interface.cpp:319-343 | What melonDS is given and whether it took it, with the buffer unchanged |
| `StateBuffers.ConsoleExtras.FinishLoad` | melonds-rs/interface.cpp:271-290 | The firmware buffer, registers and access point after a load |
| `DiscardedGeometry.ShownIsExact` | melonds-rs/interface.cpp:348-369 | After frames with harmless flushes, as those are with at most one and rendering not switched after it, a frame is said to lack geometry exactly when it shows the 3D picture and that was rendered from a list with a polygon from before the load |
| `DiscardedGeometry.AgreesExactly` | melonds-rs/interface.cpp:348-369 | Over any frames, with any number of flushes and rendering switched between flush and end of frame or not: the flags say what the polygons are all along exactly as long as every frame is harmless, a condition on the flags, the flush count and the two readings of rendering |
| `DiscardedGeometry.SwitchedRenderingIsMisread` | melonds-rs/interface.cpp:361-367 | A game that switches rendering off between its flush and the end of the frame, whose pictures are then said to lack geometry they have |
| `DiscardedGeometry.WhatIsLeft` | melonds-rs/interface.cpp:348-369 | Which flags are set after any frames, from the flushes alone |
| `DiscardedGeometry.DoneForGood` | melonds-rs/interface.cpp:502-519 | The tracker is inactive by the end of the first flush with rendering on that is not the first after the load, and ever after |
| `DiscardedGeometry.TwoFlushesWouldGoUnseen` | melonds-rs/interface.cpp:361-367 | A frame with two flushes after which the flags would be wrong, had the core flushed twice |
| `DiscardedGeometry.GeometryTracker.Track` | melonds-rs/interface.cpp:348-369 | The flags after a frame |
| `DiscardedGeometry.GeometryTracker.LoadDiscarding` | melonds-rs/interface.cpp:502-519 | The flags after a load |
| `FifoCanonical.AllEqualWhenSame` | supershuckie-core/examples/nds_bench.rs:672-681 | Two states come out equal exactly when they agree outside the three FIFOs and each FIFO has the same occupancy word and the same occupied entries in both, whatever the ring phase or stale slots |
| `FifoCanonical.EqualWhenSame` | supershuckie-core/examples/nds_bench.rs:684-700 | The same for any one FIFO at any place |
| `FifoCanonical.QueueIsKept` | supershuckie-core/examples/nds_bench.rs:684-700 | The occupied entries come out as they went in, in the same order |
| `FifoCanonical.CanonicalTwice` | supershuckie-core/examples/nds_bench.rs:684-700 | Rewriting twice is rewriting once |
| `FifoCanonical.OutsideIsKept` | supershuckie-core/examples/nds_bench.rs:684-700 | Bytes outside the FIFO are as they were, all of them when it does not fit |
| `FifoCanonical.CanonicalizeFifo` | supershuckie-core/examples/nds_bench.rs:684-700 | The rewriting, in place |
| `FifoCanonical.CanonicalizeAll` | supershuckie-core/examples/nds_bench.rs:672-681 | All three, in place |
| `FifoCanonical.FindSection` | supershuckie-core/examples/nds_bench.rs:711-724 | Where a section starts: the same walk as the state loader's |
| `FifoCanonical.TrailingIsTheSame` | supershuckie-core/examples/nds_bench.rs:703-708 | Where the comparison finds a trailing SHUK section the state loader finds the same |
| `FifoCanonical.ExtraSectionIsCut` | supershuckie-core/examples/nds_bench.rs:656-660 | A state of ours is cut exactly where its SHUK section starts |
| `Dates.DateComesBack` | supershuckie-core/examples/n3ds_clock_check.rs:24-34 | Every date of any year comes back from its days |
| `Dates.DaysComeBack` | supershuckie-core/examples/n3ds_clock_check.rs:24-34 | Every number of days is that of the date it is shown as, which is one |
| `Dates.NextDayIsNext` | azahar-rs/src/lib.rs:46-56 | Consecutive calendar days are a day, 86400 seconds, apart |
| `Dates.SecondsAreOrdered` | azahar-rs/src/lib.rs:46-56 | Seconds are ordered exactly as dates and times are |
| `Dates.SettingIsExact` | azahar-rs/src/lib.rs:46-56 | The unsigned setting is the date's seconds exactly for 1970 and later, else as many short of 2^64 |
| `Dates.ClockShowsTheSetting` | supershuckie-core/examples/n3ds_clock_check.rs:22-36 | The clock shows the date and time set exactly for 1970 and later; an earlier record shows as 1970-01-01 00:00:00 |
| `Dates.ShownIsSet` | supershuckie-core/examples/n3ds_clock_check.rs:22-36 | Setting what a record is shown as gives the record's second |

## Left out

- The emulator cores, renderers, audio, windows and all calls into foreign code: a console is an abstract state with pure step, apply, restore and hash functions.
- Real threads, wakers and clocks: interleavings of atomic steps, with times and free locks as parameters.
- The link session's clocks and recordings (`elapsed_millis`, mirrored packets, keyframes), input encoding and the choice of consoles that may be linked.
- That the two consoles of a pair stay within some skew: it is a property of the cores, and a hypothesis of the bounds that need it.
- Delivery to the link inbox of frames nobody sent: the agreement theorems have honest peers, the inbox bound has any.
- What a live packet other than a snapshot or a frame marker does: one abstract function of console and data; the follower's own recording and its statistics other than those named.
- A console is assumed to be where a snapshot says once its load succeeded, whatever it was before.
- The emulator's timing wheel: recorded changes happen in recorded order; when each is due, and 32-bit wrap-around of its time, is not modelled.
- Answers of the cable's driver below zero; counts and ids of 256 and more are truncated to a byte as in the code.
- 64-bit counters (misses, frames, generations) do not wrap.
- The serial codec of the Game Boy and Game Boy Color cores, whose code is separate.
- Address paths of more than four pointers are refused by the code; the model follows any number.
- Monitor samples, viewer windows, probes, full snapshots and the buffers they reuse: copies of memory that change nothing.
- When a link or a console at a boundary makes the writes it owes is not part of the monitor's own runs: it finds memory in any state; `MonitorLinked` has the link make them.
- MonitorService.MonitoredCore.WriteIfDifferent: on cores whose address space is more than their listed regions (the Nintendo 3DS) the code asks the core itself for memory it does not list; here such memory is unmapped.
- MonitorFreezes.FreezesHold: is about plain addresses that do not overlap; with pointers or overlap one freeze can undo another.
- MonitorEdits.EditsStand: is about an edit no later one overlaps; of overlapping ones only those of one and the same range are treated.
- MonitorTheorems.EventsAreConserved: the dropped counter is unbounded.
- melonDS's own sections and loader: `Engine`, which takes or refuses a buffer, restores a console from what it was and the bytes, and writes the length field; a load that fails half way is not modelled, nor are the interrupt lines recomputed after one.
- Adoption of a Wi-Fi Connection ID from a replay's keyframe, a heuristic tied to particular games.
- How the render thread draws: the 3D picture of a frame is rendered once, from the render list, after any flush.
- The transient buffers the state comparison blanks before it looks at the FIFOs.
- Dates that are not dates: the setting accepts any six numbers.
- Replay files, settings, the C interface and the build: input and output.
