/**
  Whole recordings: what a replayed game is told, frame after frame, and where every recorded
  answer goes when the game no longer asks for it.
 */
module SerialSession {
  import opened Words
  import opened Wrappers
  import opened SerialLog
  import opened SerialReplay

  // ---- A recorded session ----------------------------------------------------------------------

  predicate CableWith(cableIn: bool, e: Effect) { e.Plugged? || (cableIn && !e.Unplugged?) }

  /** Whether the cable is in after these effects. */
  predicate CableAfter(cableIn: bool, effects: seq<Effect>)
    decreases |effects|
  {
    if effects == [] then cableIn else CableAfter(CableWith(cableIn, effects[0]), effects[1..])
  }

  /** The driver is there for what happens at it, and not for what is called for without it. The cable can
      go in only before the first thing of a frame; also when it came out at that very moment, which
      nothing then tells of, the log beginning anew. */
  predicate InOrder(cableIn: bool, effects: seq<Effect>)
    decreases |effects|
  {
    effects == [] ||
    (&& (effects[0].Plugged? || cableIn == !effects[0].Uncabled?)
     && InOrder(CableWith(cableIn, effects[0]), effects[1..]))
  }

  predicate FrameOk(cableIn: bool, effects: seq<Effect>) { PluggedOnlyFirst(effects) && InOrder(cableIn, effects) }

  predicate SessionOk(cableIn: bool, frames: seq<seq<Effect>>)
    decreases |frames|
  {
    frames == [] || (FrameOk(cableIn, frames[0]) && SessionOk(CableAfter(cableIn, frames[0]), frames[1..]))
  }

  /** The log taken at the end of a frame. */
  function FrameLog(last: Seat, effects: seq<Effect>): seq<byte>
  {
    NoteAll(Recorder(last, []), effects).log
  }

  /** The frame's log is queued, when there is anything in it; the game runs the frame; and the driver
      goes out with the cable. */
  function ReplayFrame(p: Replay, last: Seat, effects: seq<Effect>): (Replay, seq<Reply>)
    requires Valid(p)
  {
    if FrameLog(last, effects) == [] then PerformAll(p, effects)
    else
      QueueKeepsValid(p, FrameLog(last, effects), false);
      var (q, code) := QueueLog(p, FrameLog(last, effects), false);
      var (r, replies) := PerformAll(q, effects);
      (if code == 2 then DetachReplay(r) else r, replies)
  }

  lemma ReplayFrameKeepsValid(p: Replay, last: Seat, effects: seq<Effect>)
    requires Valid(p)
    ensures Valid(ReplayFrame(p, last, effects).0)
  {
    QueueKeepsValid(p, FrameLog(last, effects), false);
    PerformAllKeepsValid(QueueLog(p, FrameLog(last, effects), false).0, effects);
    PerformAllKeepsValid(p, effects);
  }

  lemma {:induction false} PerformAllKeepsValid(p: Replay, effects: seq<Effect>)
    requires Valid(p)
    ensures Valid(PerformAll(p, effects).0)
    decreases |effects|
  {
    if effects != [] {
      PerformKeepsValid(p, effects[0]);
      PerformAllKeepsValid(Perform(p, effects[0]).0, effects[1..]);
    }
  }

  function ReplaySession(p: Replay, last: Seat, frames: seq<seq<Effect>>): (Replay, seq<seq<Reply>>)
    requires Valid(p)
    decreases |frames|
  {
    if frames == [] then (p, [])
    else
      ReplayFrameKeepsValid(p, last, frames[0]);
      var (q, replies) := ReplayFrame(p, last, frames[0]);
      var (end, rest) := ReplaySession(q, SeatAfterAll(last, frames[0]), frames[1..]);
      (end, [replies] + rest)
  }

  // ---- One frame -------------------------------------------------------------------------------

  /** The recorder with a log just taken. */
  function Taken(t: Track): Track { t.(size := 0) }

  /** What a frame leaves of it. */
  function FrameAfter(t: Track, effects: seq<Effect>): Track { Taken(AfterAll(t, effects)) }

  /** Whether the recording says the cable came out. */
  predicate SaysUnplugged(t: Track, effects: seq<Effect>) { Detach in Logged(t, effects) }

  /** The driver goes in with the first record, and out when it is told to. */
  predicate AttachedDuring(attached: bool, t: Track, effects: seq<Effect>) { attached || Logged(t, effects) != [] }

  predicate AttachedAfter(attached: bool, t: Track, effects: seq<Effect>)
  {
    if Logged(t, effects) == [] then attached else !SaysUnplugged(t, effects)
  }

  /** What the counter stands at after a frame: it starts again when the driver goes in. */
  function MissesAfter(attached: bool, misses: nat, t: Track, effects: seq<Effect>): nat
  {
    (if Logged(t, effects) == [] || attached then misses else 0)
    + (if AttachedDuring(attached, t, effects) then Lost(t, effects) + Unanswered(effects) else 0)
  }

  /** The log a frame leaves parses to the records that found room. */
  lemma FrameLogParses(t: Track, effects: seq<Effect>)
    requires PluggedOnlyFirst(effects) && t.size == 0
    ensures Parse(FrameLog(t.last, effects)) == Some(Logged(t, effects))
    ensures FrameLog(t.last, effects) == [] <==> Logged(t, effects) == []
  {
    hide Written, NoteAll, AppendAll, Parse, Kept;
    RecorderWrites(Recorder(t.last, []), effects);
    EveryLogParses(Written(t.last, effects));
    LoggedIsKept(t, effects);
    OnlyNothingIsEmpty(FrameLog(t.last, effects));
  }

  lemma OnlyNothingIsEmpty(log: seq<byte>)
    ensures Parse(log) == Some([]) <==> log == []
  {
  }

  lemma {:induction false} OnlySeatsLeft(entries: seq<Record>, seat: Seat)
    requires Strip(entries) == []
    ensures Answers(entries) == [] && LastSeat(entries, seat) == Front(entries, seat)
    decreases |entries|
  {
    if entries != [] {
      OnlySeatsLeft(entries[1..], Seat(entries[0].devices, entries[0].id));
    }
  }

  /** What the driver is at a frame boundary, with `t` where the recorder was. */
  predicate Between(p: Replay, t: Track, cableIn: bool)
    requires Valid(p)
  {
    && (p.attached ==> Holds(p, t, [])) && (cableIn ==> p.attached)
    && (!p.attached ==> p.sync == [] && p.head == 0)
  }

  lemma QueuedFrameIsHeld(p: Replay, t: Track, effects: seq<Effect>, cableIn: bool)
    requires Valid(p) && Between(p, t, cableIn) && FrameOk(cableIn, effects) && t.size == 0 && Logged(t, effects) != []
    ensures var (q, code) := QueueLog(p, FrameLog(t.last, effects), false);
            && Valid(q) && Holds(q, t, effects) && q.attached
            && q.misses == (if p.attached then p.misses else 0)
            && code == (if SaysUnplugged(t, effects) then 2 else 1)
  {
    hide NoteAll, Parse, PerformAll, FrameLog, Logged;
    var records := Logged(t, effects);
    FrameLogParses(t, effects);
    QueueKeepsValid(p, FrameLog(t.last, effects), false);
    var q := QueueLog(p, FrameLog(t.last, effects), false).0;
    var a := AttachReplay(p);
    DrainTakesAll(a);
    assert Pending(q) == SyncOf(records) && PendingChanges(q) == AsyncOf(records);
    if p.attached {
      NothingLogged(t);
      OnlySeatsLeft(Pending(a), SeatOf(a));
    } else {
      EndOfFrame(t, effects, cableIn);
      BeginsWithASeat(t, effects, SeatOf(q), t.heard);
    }
  }

  lemma NothingLogged(t: Track)
    ensures Logged(t, []) == []
  {
  }

  /** A frame the cable goes in at begins with the seat then. */
  lemma BeginsWithASeat(t: Track, effects: seq<Effect>, a: Seat, b: Seat)
    requires Logged(t, effects) != [] && (effects == [] || effects[0].Plugged?)
    ensures Front(SyncOf(Logged(t, effects)), a) == Front(SyncOf(Logged(t, effects)), b)
  {
    hide After, KeptFor;
    SyncOfLogged(t, effects);
    assert SyncOf(Logged(t, effects))[0].Config?;
  }

  lemma ReplayedFrame(p: Replay, t: Track, effects: seq<Effect>, cableIn: bool)
    requires Valid(p) && Between(p, t, cableIn) && FrameOk(cableIn, effects) && t.size == 0
    ensures var (r, replies) := ReplayFrame(p, t.last, effects);
            && |replies| == |effects|
            && (forall k :: 0 <= k < |effects| ==>
                replies[k] == ReplayedReply(AttachedDuring(p.attached, t, effects), t, effects, k))
            && Valid(r) && r.misses == MissesAfter(p.attached, p.misses, t, effects)
            && r.attached == AttachedAfter(p.attached, t, effects)
            && Between(r, FrameAfter(t, effects), CableAfter(cableIn, effects))
  {
    hide QueueLog, PerformAll, Holds, FrameLog, ReplayedReply, AfterAll, Logged, Lost, Unanswered, InOrder,
         UncabledLast;
    FrameLogParses(t, effects);
    EndOfFrame(t, effects, cableIn);
    OrderedIsUncabledLast(cableIn, effects);
    ReplayFrameKeepsValid(p, t.last, effects);
    if Logged(t, effects) == [] {
      if p.attached {
        HoldsWithoutALog(p, t, effects);
        FrameIsFaithful(p, t, effects);
      } else {
        NobodyThere(p, t, effects);
      }
    } else {
      QueuedFrameIsHeld(p, t, effects, cableIn);
      FrameIsFaithful(QueueLog(p, FrameLog(t.last, effects), false).0, t, effects);
    }
    SizeDoesNotMatter(ReplayFrame(p, t.last, effects).0, AfterAll(t, effects));
  }

  /** With no cable and no driver left in, nothing is heard. */
  lemma {:induction false} NobodyThere(p: Replay, t: Track, effects: seq<Effect>)
    requires Valid(p) && !p.attached && forall k :: 0 <= k < |effects| ==> effects[k].Uncabled?
    ensures var (q, replies) := PerformAll(p, effects);
      q == p && |replies| == |effects| && forall k :: 0 <= k < |effects| ==>
      replies[k] == ReplayedReply(false, t, effects, k) == Silence
    decreases |effects|
  {
    hide After, Heard;
    if effects != [] {
      NobodyThere(p, After(t, effects[0]), effects[1..]);
    }
  }

  lemma SizeDoesNotMatter(p: Replay, t: Track)
    requires Valid(p)
    ensures Holds(p, t, []) <==> Holds(p, Taken(t), [])
  {
  }

  lemma HoldsWithoutALog(p: Replay, t: Track, effects: seq<Effect>)
    requires Valid(p) && Holds(p, t, []) && Logged(t, effects) == []
    ensures Holds(p, t, effects)
  {
    NothingLogged(t);
  }

  lemma {:induction false} LoggedUnplug(t: Track, effects: seq<Effect>)
    ensures Detach in Logged(t, effects) ==> Unplugged in effects
    decreases |effects|
  {
    hide After, Kept, SizeBefore;
    if effects != [] {
      KeptIsAllOrNothing(t, effects[0]);
      LoggedUnplug(After(t, effects[0]), effects[1..]);
    }
  }

  /** With the cable out, and no plug to come, the game goes on without. */
  lemma {:induction false} OrderedWithout(effects: seq<Effect>)
    requires InOrder(false, effects) && forall k :: 0 <= k < |effects| ==> !effects[k].Plugged?
    ensures (forall k :: 0 <= k < |effects| ==> effects[k].Uncabled?) && !CableAfter(false, effects)
    decreases |effects|
  {
    if effects != [] {
      OrderedWithout(effects[1..]);
    }
  }

  lemma {:induction false} OrderedIsUncabledLast(cableIn: bool, effects: seq<Effect>)
    requires FrameOk(cableIn, effects)
    ensures UncabledLast(effects)
    ensures !cableIn && (effects == [] || !effects[0].Plugged?) ==> forall k :: 0 <= k < |effects| ==>
            effects[k].Uncabled?
    decreases |effects|
  {
    if effects != [] {
      var now, rest := CableWith(cableIn, effects[0]), effects[1..];
      OrderedIsUncabledLast(now, rest);
      if !now {
        OrderedWithout(rest);
      }
      forall j, k | 0 <= j < k < |effects| && effects[j].Uncabled? ensures effects[k].Uncabled? {
        assert effects[k] == rest[k - 1] && (j > 0 ==> effects[j] == rest[j - 1]);
      }
    }
  }

  /** A frame at whose end the cable is in never saw it come out. */
  lemma {:induction false} StaysIn(cableIn: bool, effects: seq<Effect>)
    requires FrameOk(cableIn, effects) && CableAfter(cableIn, effects)
    ensures Unplugged !in effects
    decreases |effects|
  {
    if effects != [] {
      var now := CableWith(cableIn, effects[0]);
      if !now {
        OrderedWithout(effects[1..]);
      }
      StaysIn(now, effects[1..]);
    }
  }

  /** The driver is in while the cable is, and a frame at which it goes in is logged. */
  lemma EndOfFrame(t: Track, effects: seq<Effect>, cableIn: bool)
    requires FrameOk(cableIn, effects)
    ensures CableAfter(cableIn, effects) ==> !SaysUnplugged(t, effects)
    ensures CableAfter(cableIn, effects) && !cableIn ==> Logged(t, effects) != []
    ensures effects != [] && effects[0].Plugged? ==> Logged(t, effects) != []
    ensures Logged(t, effects) != [] && !cableIn ==> effects != [] && effects[0].Plugged?
    ensures !cableIn && Logged(t, effects) == [] ==> forall k :: 0 <= k < |effects| ==> effects[k].Uncabled?
  {
    hide After, Kept, InOrder;
    LoggedUnplug(t, effects);
    NothingLogged(t);
    OrderedIsUncabledLast(cableIn, effects);
    if CableAfter(cableIn, effects) {
      StaysIn(cableIn, effects);
    }
    if effects != [] {
      KeptIsAllOrNothing(t, effects[0]);
      if !cableIn && !effects[0].Plugged? {
        NothingLoggedUncabled(t, effects);
        OrderedWithout(effects);
      }
    }
  }

  // ---- The whole session -----------------------------------------------------------------------

  /** The recorder before anything, and at the beginning of frame `i`. */
  const AT_OUTSET := Track(0, NO_SEAT, ByteSeat(NO_SEAT))

  function TrackAt(t: Track, frames: seq<seq<Effect>>, i: nat): Track
    requires i <= |frames|
    decreases i
  {
    if i == 0 then t else TrackAt(FrameAfter(t, frames[0]), frames[1..], i - 1)
  }

  /** Whether the driver is in while frame `i` is replayed. */
  predicate DriverAt(attached: bool, t: Track, frames: seq<seq<Effect>>, i: nat)
    requires i < |frames|
    decreases i
  {
    if i == 0 then AttachedDuring(attached, t, frames[0])
    else DriverAt(AttachedAfter(attached, t, frames[0]), FrameAfter(t, frames[0]), frames[1..], i - 1)
  }

  /** The miss counter after a session. */
  function SessionMisses(attached: bool, misses: nat, t: Track, frames: seq<seq<Effect>>): nat
    decreases |frames|
  {
    if frames == [] then misses
    else SessionMisses(AttachedAfter(attached, t, frames[0]), MissesAfter(attached, misses, t, frames[0]),
                       FrameAfter(t, frames[0]), frames[1..])
  }

  lemma {:induction false} LastAfterAll(t: Track, effects: seq<Effect>)
    ensures AfterAll(t, effects).last == SeatAfterAll(t.last, effects)
    decreases |effects|
  {
    if effects != [] {
      LastAfterAll(After(t, effects[0]), effects[1..]);
    }
  }

  lemma {:induction false} ReplayedSession(p: Replay, t: Track, frames: seq<seq<Effect>>, cableIn: bool)
    requires Valid(p) && Between(p, t, cableIn) && SessionOk(cableIn, frames) && t.size == 0
    ensures var (end, replies) := ReplaySession(p, t.last, frames);
            && end.misses == SessionMisses(p.attached, p.misses, t, frames) && |replies| == |frames|
            && (forall i :: 0 <= i < |frames| ==> |replies[i]| == |frames[i]|)
            && (forall i, k :: 0 <= i < |frames| && 0 <= k < |frames[i]| ==>
                replies[i][k] == ReplayedReply(DriverAt(p.attached, t, frames, i), TrackAt(t, frames, i), frames[i], k))
    decreases |frames|
  {
    hide ReplayFrame, Between, FrameOk, ReplayedReply, SeatAfterAll, CableAfter, AfterAll, MissesAfter, AttachedAfter,
         AttachedDuring;
    if frames != [] {
      ReplayedFrame(p, t, frames[0], cableIn);
      LastAfterAll(t, frames[0]);
      ReplayedSession(ReplayFrame(p, t.last, frames[0]).0, FrameAfter(t, frames[0]), frames[1..],
                      CableAfter(cableIn, frames[0]));
    }
  }

  /** The recorder just before effect `k` of a frame. */
  function TrackBefore(t: Track, effects: seq<Effect>, k: nat): Track
    requires k <= |effects|
    decreases k
  {
    if k == 0 then t else TrackBefore(After(t, effects[0]), effects[1..], k - 1)
  }

  lemma {:induction false} ReplayedAt(attached: bool, t: Track, effects: seq<Effect>, k: nat)
    requires k < |effects|
    ensures ReplayedReply(attached, t, effects, k)
            == ReplayedReply(attached, TrackBefore(t, effects, k), effects[k..], 0)
    decreases k
  {
    hide After, Keeps, Heard;
    if k > 0 {
      ReplayedAt(attached, After(t, effects[0]), effects[1..], k - 1);
      assert effects[1..][k - 1..] == effects[k..];
    } else {
      assert effects[0..] == effects;
    }
  }

  /** Whether effect `k` of a frame is told to the replayed game as it was to the recorded one. A question
      is when the seat it saw is the one last logged before the next answer that is, as far as a byte
      can tell. An answer is when it was logged, or was what nobody being there would give. What the
      game calls for without a cable, nobody told it anything: so it is when no driver is in then. */
  predicate ToldAsRecorded(attached: bool, t: Track, effects: seq<Effect>, k: nat)
    requires k < |effects|
  {
    var e, now := effects[k], TrackBefore(t, effects, k);
    match e
    case AskedDevices(devices, _) => Heard(After(now, e), effects[k + 1..]).devices == devices
    case AskedId(_, id) => Heard(After(now, e), effects[k + 1..]).id == id
    case Answered(answer) => Keeps(now, e) || ReplyOf(answer) == MissReply(CallOf(answer))
    case Changed(_) => Keeps(now, e)
    case Uncabled(_) => !attached
    case _ => true
  }

  lemma ToldExactly(attached: bool, t: Track, effects: seq<Effect>, k: nat)
    requires k < |effects|
    ensures ReplayedReply(attached, t, effects, k) == LiveReply(effects[k]) <==> ToldAsRecorded(attached, t, effects, k)
  {
    hide After, Keeps, Heard, TrackBefore, ReplyOf;
    ReplayedAt(attached, t, effects, k);
    assert effects[k..][0] == effects[k] && effects[k..][1..] == effects[k + 1..];
  }

  /** A recorded game, replayed, is told the same thing at the same point, but for what found no room in
      the log, for questions whose seat was logged too early or not at all, and for what it calls for
      without a cable while the driver is still in: exactly as `ToldAsRecorded` says. The misses are
      the answers that found no room, and those calls that are no questions, since the driver last
      went in. */
  lemma RecordingIsFaithful(frames: seq<seq<Effect>>)
    requires SessionOk(false, frames)
    ensures var (end, replies) := ReplaySession(ABSENT, NO_SEAT, frames);
            && end.misses == SessionMisses(false, 0, AT_OUTSET, frames) && |replies| == |frames|
            && (forall i :: 0 <= i < |frames| ==> |replies[i]| == |frames[i]|)
            && (forall i, k :: 0 <= i < |frames| && 0 <= k < |frames[i]| ==>
                  (replies[i][k] == LiveReply(frames[i][k]) <==>
                   ToldAsRecorded(DriverAt(false, AT_OUTSET, frames, i), TrackAt(AT_OUTSET, frames, i), frames[i], k)))
  {
    hide ReplaySession, SessionOk, ReplayedReply, ToldAsRecorded, SessionMisses, DriverAt;
    ReplayedSession(ABSENT, AT_OUTSET, frames, false);
    var replies := ReplaySession(ABSENT, NO_SEAT, frames).1;
    forall i, k | 0 <= i < |frames| && 0 <= k < |frames[i]|
      ensures replies[i][k] == LiveReply(frames[i][k]) <==>
              ToldAsRecorded(DriverAt(false, AT_OUTSET, frames, i), TrackAt(AT_OUTSET, frames, i), frames[i], k)
    {
      ToldExactly(DriverAt(false, AT_OUTSET, frames, i), TrackAt(AT_OUTSET, frames, i), frames[i], k);
    }
  }

  /** What a call without a cable is told instead, while the driver is in: the seat last logged, or a miss. */
  lemma UncabledIsTold(frames: seq<seq<Effect>>, i: nat, k: nat)
    requires SessionOk(false, frames) && i < |frames| && k < |frames[i]| && frames[i][k].Uncabled?
    ensures var (end, replies) := ReplaySession(ABSENT, NO_SEAT, frames);
      && |replies| == |frames| && |replies[i]| == |frames[i]|
      && replies[i][k] == if DriverAt(false, AT_OUTSET, frames, i)
                          then EmptyReply(frames[i][k].call,
                                          TrackBefore(TrackAt(AT_OUTSET, frames, i), frames[i], k).heard) else Silence
  {
    hide ReplaySession, SessionOk, SessionMisses, DriverAt, TrackAt, TrackBefore, EmptyReply;
    ReplayedSession(ABSENT, AT_OUTSET, frames, false);
    ReplayedAt(DriverAt(false, AT_OUTSET, frames, i), TrackAt(AT_OUTSET, frames, i), frames[i], k);
    assert frames[i][k..][0] == frames[i][k];
  }

  // ---- When it is exact ------------------------------------------------------------------------

  predicate NothingDropped(last: Seat, effects: seq<Effect>)
  {
    |EncodeAll(Written(last, effects))| <= LINK_LOG_MAX_BYTES
  }

  predicate FrameKept(t: Track, effects: seq<Effect>)
  {
    forall k :: 0 <= k < |effects| ==> Keeps(TrackBefore(t, effects, k), effects[k])
  }

  lemma {:induction false} EncodeJoins(a: seq<Record>, b: seq<Record>)
    ensures EncodeAll(a + b) == EncodeAll(a) + EncodeAll(b)
  {
    hide Encode;
    if a == [] {
      assert a + b == b;
    } else {
      assert (a + b)[1..] == a[1..] + b;
      EncodeJoins(a[1..], b);
    }
  }

  lemma {:induction false} KeptWhenNothingDropped(t: Track, effects: seq<Effect>)
    requires PluggedOnlyFirst(effects) && (effects != [] && effects[0].Plugged? ==> t.size == 0)
    requires t.size + |EncodeAll(Written(t.last, effects))| <= LINK_LOG_MAX_BYTES
    ensures FrameKept(t, effects)
    decreases |effects|
  {
    hide WrittenFor, EncodeAll, Kept, LastSeat;
    if effects != [] {
      var w, rest := WrittenFor(t.last, effects[0]), Written(SeatAfter(t.last, effects[0]), effects[1..]);
      EncodeJoins(w, rest);
      AllKeptWhenItFits(t.size, w);
      KeptWhenNothingDropped(After(t, effects[0]), effects[1..]);
      forall k | 0 <= k < |effects| ensures Keeps(TrackBefore(t, effects, k), effects[k]) {
        if k > 0 {
          assert effects[k] == effects[1..][k - 1];
        }
      }
    }
  }

  /** Nothing dropped, what was last logged is what was last seen. */
  predicate InTouch(t: Track) { t.heard == ByteSeat(t.last) }

  lemma StaysInTouch(t: Track, e: Effect)
    requires InTouch(t) && Keeps(t, e)
    ensures InTouch(After(t, e))
  {
    hide Keeps;
    HeardAfter(t, e);
  }

  lemma {:induction false} FrameStaysInTouch(t: Track, effects: seq<Effect>, k: nat)
    requires InTouch(t) && FrameKept(t, effects) && k <= |effects|
    ensures InTouch(TrackBefore(t, effects, k))
            && (k == |effects| ==> TrackBefore(t, effects, k) == AfterAll(t, effects))
    decreases k
  {
    hide InTouch, Keeps, After;
    if k > 0 {
      assert Keeps(TrackBefore(t, effects, 0), effects[0]);
      StaysInTouch(t, effects[0]);
      forall i | 0 <= i < |effects[1..]| ensures Keeps(TrackBefore(After(t, effects[0]), effects[1..], i),
              effects[1..][i]) {
        assert Keeps(TrackBefore(t, effects, i + 1), effects[i + 1]);
      }
      FrameStaysInTouch(After(t, effects[0]), effects[1..], k - 1);
    }
  }

  lemma {:induction false} SessionStaysInTouch(t: Track, frames: seq<seq<Effect>>, cableIn: bool, i: nat)
    requires InTouch(t) && t.size == 0 && SessionOk(cableIn, frames) && i <= |frames|
    requires forall j :: 0 <= j < i ==> NothingDropped(TrackAt(t, frames, j).last, frames[j])
    ensures InTouch(TrackAt(t, frames, i)) && TrackAt(t, frames, i).size == 0
    decreases i
  {
    hide NothingDropped, FrameKept, TrackBefore, AfterAll;
    if i > 0 {
      assert NothingDropped(TrackAt(t, frames, 0).last, frames[0]);
      KeptFrameStaysInTouch(t, frames[0]);
      forall j | 0 <= j < i - 1 ensures NothingDropped(TrackAt(FrameAfter(t, frames[0]), frames[1..], j).last,
              frames[1..][j]) {
        assert NothingDropped(TrackAt(t, frames, j + 1).last, frames[j + 1]);
      }
      SessionStaysInTouch(FrameAfter(t, frames[0]), frames[1..], CableAfter(cableIn, frames[0]), i - 1);
    }
  }

  lemma KeptFrameStaysInTouch(t: Track, effects: seq<Effect>)
    requires InTouch(t) && t.size == 0 && PluggedOnlyFirst(effects) && NothingDropped(t.last, effects)
    ensures InTouch(FrameAfter(t, effects))
  {
    hide FrameKept;
    KeptWhenNothingDropped(t, effects);
    FrameStaysInTouch(t, effects, |effects|);
  }

  /** All questions between two answers see the same seat. */
  predicate SteadySeats(effects: seq<Effect>)
  {
    forall j, k :: 0 <= j < k < |effects| && Asks(effects[j]) && (Asks(effects[k]) || effects[k].Plugged?)
                   && (forall m :: j < m < k ==> !effects[m].Answered?)
      ==> Seat(effects[j].devices, effects[j].id) == Seat(effects[k].devices, effects[k].id)
  }

  lemma {:induction false} TrackBeforeNext(t: Track, effects: seq<Effect>, k: nat)
    requires k < |effects|
    ensures TrackBefore(t, effects, k + 1) == After(TrackBefore(t, effects, k), effects[k])
    decreases k
  {
    hide After;
    if k > 0 {
      TrackBeforeNext(After(t, effects[0]), effects[1..], k - 1);
    }
  }

  lemma {:induction false} SteadySettles(t: Track, effects: seq<Effect>, k: nat, at: nat, seat: Seat)
    requires k < at <= |effects| && Asks(effects[k]) && SteadySeats(effects) && FrameKept(t, effects)
    requires forall m :: k < m < at ==> !effects[m].Answered?
    requires seat == Seat(effects[k].devices, effects[k].id)
    requires TrackBefore(t, effects, at).last == seat && TrackBefore(t, effects, at).heard == ByteSeat(seat)
    ensures Heard(TrackBefore(t, effects, at), effects[at..]) == ByteSeat(seat)
    decreases |effects| - at
  {
    hide Keeps, KeptFor, TrackBefore;
    if at < |effects| && !effects[at].Answered? {
      assert effects[at..][0] == effects[at] && effects[at..][1..] == effects[at + 1..];
      TrackBeforeNext(t, effects, at);
      HeardAfter(TrackBefore(t, effects, at), effects[at]);
      SteadySettles(t, effects, k, at + 1, seat);
    } else if at < |effects| {
      assert Keeps(TrackBefore(t, effects, at), effects[at]);
    }
  }

  /** With everything logged so far, and steady seats that fit a byte, the replayed game is told exactly
      what the recorded one was, but for what it calls for without a cable while the driver is in. */
  lemma SteadyRecordingIsExact(frames: seq<seq<Effect>>, i: nat, k: nat)
    requires SessionOk(false, frames) && i < |frames| && k < |frames[i]| && SteadySeats(frames[i])
    requires forall j :: 0 <= j <= i ==> NothingDropped(TrackAt(AT_OUTSET, frames, j).last, frames[j])
    requires Asks(frames[i][k]) ==> frames[i][k].devices < 0x100 && frames[i][k].id < 0x100
    ensures var (end, replies) := ReplaySession(ABSENT, NO_SEAT, frames);
      && |replies| == |frames| && |replies[i]| == |frames[i]|
      && (replies[i][k] == LiveReply(frames[i][k]) <==>
          !(frames[i][k].Uncabled? && DriverAt(false, AT_OUTSET, frames, i)))
  {
    hide ReplaySession, SessionOk, NothingDropped, FrameKept, Keeps, After, Heard, SteadySeats, SessionMisses;
    RecordingIsFaithful(frames);
    SessionStaysInTouch(AT_OUTSET, frames, false, i);
    var t, e := TrackAt(AT_OUTSET, frames, i), frames[i][k];
    FrameOfSession(frames, false, i);
    assert NothingDropped(t.last, frames[i]);
    SteadyFrameIsExact(DriverAt(false, AT_OUTSET, frames, i), t, frames[i], k);
  }

  lemma {:induction false} FrameOfSession(frames: seq<seq<Effect>>, cableIn: bool, i: nat)
    requires SessionOk(cableIn, frames) && i < |frames|
    ensures PluggedOnlyFirst(frames[i])
    decreases i
  {
    if i > 0 {
      FrameOfSession(frames[1..], CableAfter(cableIn, frames[0]), i - 1);
    }
  }

  lemma SteadyFrameIsExact(attached: bool, t: Track, effects: seq<Effect>, k: nat)
    requires InTouch(t) && t.size == 0 && PluggedOnlyFirst(effects) && NothingDropped(t.last, effects)
    requires k < |effects| && SteadySeats(effects)
             && (Asks(effects[k]) ==> effects[k].devices < 0x100 && effects[k].id < 0x100)
    ensures ToldAsRecorded(attached, t, effects, k) <==> !(effects[k].Uncabled? && attached)
  {
    hide After, Heard, TrackBefore, SteadySeats, KeptFor;
    KeptWhenNothingDropped(t, effects);
    assert Keeps(TrackBefore(t, effects, k), effects[k]);
    if Asks(effects[k]) {
      FrameStaysInTouch(t, effects, k);
      TrackBeforeNext(t, effects, k);
      StaysInTouch(TrackBefore(t, effects, k), effects[k]);
      SeenLast(TrackBefore(t, effects, k), effects[k]);
      SteadySettles(t, effects, k, k + 1, Seat(effects[k].devices, effects[k].id));
    }
  }

  lemma SeenLast(t: Track, e: Effect)
    ensures After(t, e).last == SeatAfter(t.last, e)
  {
  }

  // ---- When it is not --------------------------------------------------------------------------

  /** A question about the first console of two, asked before the second came and answered after. */
  const TWO_SEATS := [[Plugged(1, 0), AskedDevices(1, 0), AskedDevices(2, 0)]]

  /** Nothing is lost, and still the first question is told 2 where it was told 1. */
  lemma SeatsAreHeardTooEarly()
    ensures SessionOk(false, TWO_SEATS)
    ensures var (end, replies) := ReplaySession(ABSENT, NO_SEAT, TWO_SEATS);
      && end.misses == 0 && |replies| == 1 && |replies[0]| == 3
      && LiveReply(TWO_SEATS[0][1]) == DevicesAre(1) && replies[0][1] == DevicesAre(2) == replies[0][2]
  {
    hide ReplaySession;
    var effects := TWO_SEATS[0];
    var t1 := After(AT_OUTSET, effects[0]);
    var t2 := After(t1, effects[1]);
    var t3 := After(t2, effects[2]);
    ReplayedSession(ABSENT, AT_OUTSET, TWO_SEATS, false);
    HeardAfter(AT_OUTSET, effects[0]);
    HeardAfter(t1, effects[1]);
    HeardAfter(t2, effects[2]);
  }

  predicate NoNewSeat(last: Seat, effects: seq<Effect>)
  {
    forall k :: 0 <= k < |effects| ==>
           !effects[k].Plugged? && (Asks(effects[k]) ==> Seat(effects[k].devices, effects[k].id) == last)
  }

  lemma {:induction false} SeatStays(attached: bool, t: Track, effects: seq<Effect>)
    requires NoNewSeat(t.last, effects)
    ensures AfterAll(t, effects).last == t.last && AfterAll(t, effects).heard == t.heard && Heard(t, effects) == t.heard
    ensures forall k :: 0 <= k < |effects| && Asks(effects[k]) ==>
            ReplayedReply(attached, t, effects, k) == SeatReply(effects[k], t.heard)
    decreases |effects|
  {
    hide Keeps, KeptFor;
    if effects != [] {
      HeardAfter(t, effects[0]);
      SeatStays(attached, After(t, effects[0]), effects[1..]);
      forall k | 0 <= k < |effects|
             && Asks(effects[k]) ensures ReplayedReply(attached, t, effects, k) == SeatReply(effects[k], t.heard) {
        if k > 0 {
          assert effects[k] == effects[1..][k - 1];
        }
      }
    }
  }

  lemma {:induction false} TrackAtNext(t: Track, frames: seq<seq<Effect>>, i: nat)
    requires i < |frames|
    ensures TrackAt(t, frames, i + 1) == FrameAfter(TrackAt(t, frames, i), frames[i])
    decreases i
  {
    hide AfterAll;
    if i > 0 {
      TrackAtNext(FrameAfter(t, frames[0]), frames[1..], i - 1);
    }
  }

  lemma {:induction false} SeatStaysOverFrames(t: Track, frames: seq<seq<Effect>>, i: nat, j: nat)
    requires i <= j <= |frames|
    requires forall f :: i <= f < j ==> NoNewSeat(TrackAt(t, frames, i).last, frames[f])
    ensures TrackAt(t, frames, j).last == TrackAt(t, frames, i).last
            && TrackAt(t, frames, j).heard == TrackAt(t, frames, i).heard
    decreases j
  {
    hide TrackAt, AfterAll, NoNewSeat;
    if i < j {
      SeatStaysOverFrames(t, frames, i, j - 1);
      TrackAtNext(t, frames, j - 1);
      SeatStays(true, TrackAt(t, frames, j - 1), frames[j - 1]);
    }
  }

  /** From whatever frame on no other seat is seen: every question is told the seat last logged, whatever
      the seat seen. So one that found no room is never told, until there is another. */
  lemma ALostSeatIsNeverTold(frames: seq<seq<Effect>>, i: nat)
    requires SessionOk(false, frames) && i <= |frames|
    requires forall f :: i <= f < |frames| ==> NoNewSeat(TrackAt(AT_OUTSET, frames, i).last, frames[f])
    ensures var (end, replies) := ReplaySession(ABSENT, NO_SEAT, frames);
      && |replies| == |frames| && (forall f :: 0 <= f < |frames| ==> |replies[f]| == |frames[f]|)
      && (forall f, k :: i <= f < |frames| && 0 <= k < |frames[f]| && Asks(frames[f][k]) ==>
            replies[f][k] == SeatReply(frames[f][k], TrackAt(AT_OUTSET, frames, i).heard))
  {
    hide ReplaySession, SessionOk, ReplayedReply, TrackAt, NoNewSeat, SessionMisses;
    ReplayedSession(ABSENT, AT_OUTSET, frames, false);
    forall f, k | i <= f < |frames| && 0 <= k < |frames[f]| && Asks(frames[f][k])
      ensures ReplayedReply(DriverAt(false, AT_OUTSET, frames, f), TrackAt(AT_OUTSET, frames, f), frames[f], k)
              == SeatReply(frames[f][k], TrackAt(AT_OUTSET, frames, i).heard)
    {
      SeatStaysOverFrames(AT_OUTSET, frames, i, f);
      SeatStays(DriverAt(false, AT_OUTSET, frames, f), TrackAt(AT_OUTSET, frames, f), frames[f]);
    }
  }

  const TRANSFER := Answered(Multi(0, 0, 0, 0))

  function Transfers(n: nat): seq<Effect> { if n == 0 then [] else [TRANSFER] + Transfers(n - 1) }

  /** A frame that fills the log to all but two bytes; then the second console is seen; and another frame. */
  const FULL := [Plugged(1, 0)] + (Transfers(3640) + FULL_END)
  const OVERFLOWING := [FULL, [AskedDevices(2, 0)]]

  lemma {:induction false} TransfersFit(attached: bool, t: Track, n: nat, rest: seq<Effect>, k: nat)
    requires t.size + 9 * n <= LINK_LOG_MAX_BYTES && k < |rest|
    ensures |Transfers(n)| == n && forall i :: 0 <= i < n ==> Transfers(n)[i] == TRANSFER
    ensures var effects, u := Transfers(n) + rest, Track(t.size + 9 * n, t.last, t.heard);
      && AfterAll(t, effects) == AfterAll(u, rest) && Lost(t, effects) == Lost(u, rest)
         && Unanswered(effects) == Unanswered(rest)
      && ReplayedReply(attached, t, effects, n + k) == ReplayedReply(attached, u, rest, k)
    decreases n
  {
    hide Keeps, WrittenFor, Heard, After, LiveReply, DroppedReply, SeatReply;
    if n == 0 {
      assert Transfers(n) + rest == rest;
    } else {
      var u := Track(t.size + 9, t.last, t.heard);
      assert (Transfers(n) + rest)[1..] == Transfers(n - 1) + rest;
      OneTransfer(t);
      TransfersFit(attached, u, n - 1, rest, k);
    }
  }

  lemma OneTransfer(t: Track)
    requires t.size + 9 <= LINK_LOG_MAX_BYTES
    ensures Keeps(t, TRANSFER) && After(t, TRANSFER) == Track(t.size + 9, t.last, t.heard)
  {
    KeptIsAllOrNothing(t, TRANSFER);
    HeardAfter(t, TRANSFER);
    assert EncodeAll([TRANSFER.answer]) == Encode(TRANSFER.answer) + EncodeAll([]);
  }

  const FULL_END := [Answered(Start(1)), AskedDevices(2, 0)]

  lemma FullPlugs()
    ensures After(AT_OUTSET, Plugged(1, 0)) == Track(4, Seat(1, 0), Seat(1, 0))
  {
    var e := Plugged(1, 0);
    KeptIsAllOrNothing(AT_OUTSET, e);
    HeardAfter(AT_OUTSET, e);
    var w := WrittenFor(NO_SEAT, e);
    assert w == [Attach] + [Config(1, 0)];
    EncodeJoins([Attach], [Config(1, 0)]);
    assert EncodeAll([Attach]) == Encode(Attach) + EncodeAll([])
           && EncodeAll([Config(1, 0)]) == Encode(Config(1, 0)) + EncodeAll([]);
  }

  lemma FullEnds(attached: bool)
    ensures var u := Track(32764, Seat(1, 0), Seat(1, 0));
      && Lost(u, FULL_END) == 0 && Unanswered(FULL_END) == 0 && ReplayedReply(attached, u, FULL_END, 1) == DevicesAre(1)
      && AfterAll(u, FULL_END).last == Seat(2, 0) && AfterAll(u, FULL_END).heard == Seat(1, 0)
  {
    var u, e, f := Track(32764, Seat(1, 0), Seat(1, 0)), FULL_END[0], FULL_END[1];
    KeptIsAllOrNothing(u, e);
    HeardAfter(u, e);
    assert EncodeAll([Start(1)]) == Encode(Start(1)) + EncodeAll([]);
    assert After(u, e) == Track(32766, Seat(1, 0), Seat(1, 0));
    KeptIsAllOrNothing(After(u, e), f);
    HeardAfter(After(u, e), f);
    assert FULL_END[1..] == [f] && [f][1..] == [];
    assert AfterAll(u, FULL_END) == AfterAll(After(u, e), [f]) == AfterAll(After(After(u, e), f), []);
    assert Lost(u, FULL_END) == Lost(After(u, e), [f]) == Lost(After(After(u, e), f), []);
    assert ReplayedReply(attached, u, FULL_END, 1) == ReplayedReply(attached, After(u, e), [f], 0);
  }

  lemma {:induction false} NothingPulled(effects: seq<Effect>)
    requires forall k :: 0 <= k < |effects| ==> !effects[k].Plugged? && !effects[k].Unplugged? && !effects[k].Uncabled?
    ensures InOrder(true, effects) && CableAfter(true, effects)
    decreases |effects|
  {
    if effects != [] {
      NothingPulled(effects[1..]);
    }
  }

  lemma FullFrame(attached: bool)
    ensures FrameOk(false, FULL) && CableAfter(false, FULL)
    ensures |FULL| == 3643 && FULL[3642] == AskedDevices(2, 0)
    ensures Lost(AT_OUTSET, FULL) == 0 && Unanswered(FULL) == 0
            && ReplayedReply(attached, AT_OUTSET, FULL, 3642) == DevicesAre(1)
    ensures FrameAfter(AT_OUTSET, FULL) == Track(0, Seat(2, 0), Seat(1, 0))
  {
    hide After, Keeps, Heard, AfterAll, Lost, Transfers, ReplayedReply;
    var u := Track(32764, Seat(1, 0), Seat(1, 0));
    var rest := Transfers(3640) + FULL_END;
    FullPlugs();
    FullEnds(attached);
    TransfersFit(attached, Track(4, Seat(1, 0), Seat(1, 0)), 3640, FULL_END, 1);
    assert FULL[0] == Plugged(1, 0) && FULL[1..] == rest;
    NothingPulled(rest);
    FirstOfFrame(attached, AT_OUTSET, FULL, 3642);
  }

  lemma FirstOfFrame(attached: bool, t: Track, effects: seq<Effect>, k: nat)
    requires effects != [] && effects[0].Plugged? && 0 < k < |effects|
    ensures AfterAll(t, effects) == AfterAll(After(t, effects[0]), effects[1..])
    ensures Lost(t, effects) == Lost(After(t, effects[0]), effects[1..])
            && Unanswered(effects) == Unanswered(effects[1..])
    ensures ReplayedReply(attached, t, effects, k) == ReplayedReply(attached, After(t, effects[0]), effects[1..], k - 1)
  {
  }

  /** A seat that finds no room is not told, in that frame or the next, though no call is missed. */
  lemma OverflowLosesASeat()
    ensures SessionOk(false, OVERFLOWING)
    ensures var (end, replies) := ReplaySession(ABSENT, NO_SEAT, OVERFLOWING);
      && end.misses == 0 && |replies| == 2 && |replies[0]| == |FULL| == 3643 && |replies[1]| == 1
      && LiveReply(FULL[3642]) == DevicesAre(2) && replies[0][3642] == DevicesAre(1)
      && LiveReply(OVERFLOWING[1][0]) == DevicesAre(2) && replies[1][0] == DevicesAre(1)
  {
    hide ReplaySession, Transfers, ReplayedReply, AfterAll, Lost, Logged, FrameOk, SaysUnplugged, After;
    FullFrame(DriverAt(false, AT_OUTSET, OVERFLOWING, 0));
    var t, frames, next := FrameAfter(AT_OUTSET, FULL), OVERFLOWING, OVERFLOWING[1];
    QuestionAlone(DriverAt(false, AT_OUTSET, OVERFLOWING, 1), t, next);
    assert frames[1..] == [next] && [next][1..] == [];
    assert SessionOk(false, frames) by {
      assert SessionOk(true, []) && SessionOk(true, [next]) && SessionOk(true, frames[1..]);
    }
    ReplayedSession(ABSENT, AT_OUTSET, frames, false);
    assert TrackAt(AT_OUTSET, frames, 0) == AT_OUTSET;
    assert TrackAt(AT_OUTSET, frames, 1) == TrackAt(t, frames[1..], 0);
    assert SessionMisses(false, 0, AT_OUTSET, frames) == 0 by {
      var attached := AttachedAfter(false, AT_OUTSET, FULL);
      assert MissesAfter(false, 0, AT_OUTSET, FULL) == 0 && MissesAfter(attached, 0, t, next) == 0;
      assert SessionMisses(false, 0, AT_OUTSET, frames) == SessionMisses(attached, 0, t, [next]);
      assert SessionMisses(attached, 0, t, [next])
             == SessionMisses(AttachedAfter(attached, t, next), 0, FrameAfter(t, next), []);
    }
  }

  lemma QuestionAlone(attached: bool, t: Track, effects: seq<Effect>)
    requires effects == [AskedDevices(2, 0)] && t == Track(0, Seat(2, 0), Seat(1, 0))
    ensures FrameOk(true, effects) && CableAfter(true, effects)
    ensures Lost(t, effects) == 0 && Unanswered(effects) == 0 && ReplayedReply(attached, t, effects, 0) == DevicesAre(1)
  {
    hide After;
    NothingPulled(effects);
    SeatStays(attached, t, effects);
    assert Lost(t, effects) == Lost(After(t, effects[0]), []);
  }

  // ---- Accounting ------------------------------------------------------------------------------

  /** Anything the driver can be put through while it is in. */
  datatype Act = Feed(bytes: seq<byte>) | Play(call: Call) | FireEvent

  function Act1(p: Replay, a: Act): Replay
    requires Valid(p)
    ensures Valid(Act1(p, a))
  {
    match a
    case Feed(bytes) => QueueKeepsValid(p, bytes, false); QueueLog(p, bytes, false).0
    case Play(call) => Do(p, call).0
    case FireEvent => Fire(p).0
  }

  /** What became of an answer: the game got it, or the next log replaced it first. */
  datatype Fate = Fate(answer: Record, matched: bool)

  /** The books: every answer fed in order, what became of the first of them, those still waiting,
      calls nothing was there for, and every sync entry fed so far. */
  datatype Book = Book(fed: seq<Record>, fates: seq<Fate>, waiting: seq<Record>, unanswered: nat, entries: seq<Record>)

  const EMPTY := Book([], [], [], 0, [])

  function AllDiscarded(answers: seq<Record>): seq<Fate>
  {
    seq(|answers|, i requires 0 <= i < |answers| => Fate(answers[i], false))
  }

  function Entered(b: Book, a: Act): Book
  {
    match a
    case FireEvent => b
    case Play(call) =>
      if call == GetDevices || call == GetId then b
      else if b.waiting != [] && IsAnswer(b.waiting[0]) && CallOf(b.waiting[0]) == call then
        b.(fates := b.fates + [Fate(b.waiting[0], true)], waiting := b.waiting[1..])
      else b.(unanswered := b.unanswered + 1)
    case Feed(bytes) =>
      match Parse(bytes)
      case None => b
      case Some(records) =>
        Book(b.fed + Answers(SyncOf(records)), b.fates + AllDiscarded(b.waiting), Answers(SyncOf(records)),
             b.unanswered, b.entries + SyncOf(records))
  }

  function Run(p: Replay, b: Book, acts: seq<Act>): (Replay, Book)
    requires Valid(p)
    ensures Valid(Run(p, b, acts).0)
    decreases |acts|
  {
    if acts == [] then (p, b) else Run(Act1(p, acts[0]), Entered(b, acts[0]), acts[1..])
  }

  function AnswersOf(fates: seq<Fate>): seq<Record> { seq(|fates|, i requires 0 <= i < |fates| => fates[i].answer) }

  function Discards(fates: seq<Fate>): nat
  {
    if fates == [] then 0
    else (if fates[|fates| - 1].matched then 0 else 1) + Discards(fates[..|fates| - 1])
  }

  predicate Balanced(p: Replay, b: Book)
    requires Valid(p)
  {
    && AnswersOf(b.fates) + b.waiting == b.fed
    && b.waiting == Answers(Pending(p))
    && p.misses == b.unanswered + Discards(b.fates)
    && LastSeat(Pending(p), SeatOf(p)) == LastSeat(b.entries, Seat(0, 0))
    && p.attached
  }

  lemma {:induction false} AllDiscardedCount(fates: seq<Fate>, answers: seq<Record>)
    ensures Discards(fates + AllDiscarded(answers)) == Discards(fates) + |answers|
    ensures AnswersOf(fates + AllDiscarded(answers)) == AnswersOf(fates) + answers
    decreases |answers|
  {
    var all := fates + AllDiscarded(answers);
    if answers == [] {
      assert all == fates;
    } else {
      var init := answers[..|answers| - 1];
      assert all[..|all| - 1] == fates + AllDiscarded(init);
      AllDiscardedCount(fates, init);
    }
  }

  lemma {:induction false} LastSeatJoins(a: seq<Record>, b: seq<Record>, seat: Seat)
    ensures LastSeat(a + b, seat) == LastSeat(b, LastSeat(a, seat))
    decreases |a|
  {
    if a == [] {
      assert a + b == b;
    } else {
      assert (a + b)[1..] == a[1..] + b;
      LastSeatJoins(a[1..], b, if a[0].Config? then Seat(a[0].devices, a[0].id) else seat);
    }
  }

  lemma {:induction false} AnswersBehindSeats(entries: seq<Record>, seat: Seat)
    ensures Answers(Strip(entries)) == Answers(entries)
    ensures LastSeat(Strip(entries), Front(entries, seat)) == LastSeat(entries, seat)
    ensures (Answers(entries) == [] <==> Strip(entries) == [])
    ensures Strip(entries) != [] ==>
              !Strip(entries)[0].Config? && Answers(entries)[0] == Strip(entries)[0]
              && Answers(entries)[1..] == Answers(Strip(entries)[1..])
    decreases |entries|
  {
    if entries != [] && entries[0].Config? {
      AnswersBehindSeats(entries[1..], Seat(entries[0].devices, entries[0].id));
    }
  }

  /** The seats in front of the next answer move no answer. */
  lemma ApplyingSeatsBalances(p: Replay, b: Book)
    requires Valid(p) && Balanced(p, b)
    ensures var q := ApplyConfig(p);
            && Balanced(q, b)
            && (b.waiting == [] <==> q.head == |q.sync|)
            && (b.waiting != [] ==> IsAnswer(q.sync[q.head]) && q.sync[q.head] == b.waiting[0]
                                    && b.waiting[1..] == Answers(q.sync[q.head + 1..]))
  {
    hide Answers, LastSeat, AnswersOf, Discards, Strip, Front, ApplyConfig;
    var q := ApplyConfig(p);
    ApplyConfigStrips(p);
    AnswersBehindSeats(Pending(p), SeatOf(p));
    if b.waiting != [] {
      assert Pending(q)[1..] == q.sync[q.head + 1..];
    }
  }

  lemma MatchBalances(q: Replay, b: Book)
    requires Valid(q) && Balanced(q, b) && b.waiting != [] && q.head < |q.sync|
    requires IsAnswer(q.sync[q.head]) && q.sync[q.head] == b.waiting[0]
    requires b.waiting[1..] == Answers(q.sync[q.head + 1..])
    ensures Balanced(q.(head := q.head + 1),
                     b.(fates := b.fates + [Fate(b.waiting[0], true)], waiting := b.waiting[1..]))
  {
    hide Answers, LastSeat, AnswersOf, Discards;
    FatesGrow(b.fates, b.waiting[0]);
    assert AnswersOf(b.fates) + [b.waiting[0]] + b.waiting[1..] == AnswersOf(b.fates) + b.waiting;
    assert Pending(q) == [q.sync[q.head]] + q.sync[q.head + 1..];
    LastSeatSkipsAnswer(Pending(q), SeatOf(q));
  }

  lemma FatesGrow(fates: seq<Fate>, answer: Record)
    ensures AnswersOf(fates + [Fate(answer, true)]) == AnswersOf(fates) + [answer]
    ensures Discards(fates + [Fate(answer, true)]) == Discards(fates)
  {
    assert (fates + [Fate(answer, true)])[..|fates|] == fates;
  }

  lemma PlayBalances(p: Replay, b: Book, call: Call)
    requires Valid(p) && Balanced(p, b)
    ensures Balanced(Do(p, call).0, Entered(b, Play(call)))
  {
    hide Answers, LastSeat, ApplyConfig, AnswersOf, Discards;
    ApplyingSeatsBalances(p, b);
    var q := ApplyConfig(p);
    if call == GetDevices || call == GetId {
    } else if b.waiting != [] && CallOf(b.waiting[0]) == call {
      MatchBalances(q, b);
    } else {
      assert Pending(Do(p, call).0) == Pending(q);
    }
  }

  lemma LastSeatSkipsAnswer(entries: seq<Record>, seat: Seat)
    requires entries != [] && !entries[0].Config?
    ensures LastSeat(entries[1..], seat) == LastSeat(entries, seat)
  {
  }

  lemma FeedBalances(p: Replay, b: Book, bytes: seq<byte>)
    requires Valid(p) && Balanced(p, b)
    ensures Valid(QueueLog(p, bytes, false).0)
    ensures Balanced(QueueLog(p, bytes, false).0, Entered(b, Feed(bytes)))
    ensures Parse(bytes).Some? ==> SeatOf(QueueLog(p, bytes, false).0) == LastSeat(b.entries, Seat(0, 0))
  {
    hide Answers, Parse;
    QueueKeepsValid(p, bytes, false);
    if Parse(bytes).Some? {
      var q := QueueLog(p, bytes, false).0;
      var sync := SyncOf(Parse(bytes).value);
      DrainTakesAll(p);
      AllDiscardedCount(b.fates, b.waiting);
      LastSeatJoins(b.entries, sync, Seat(0, 0));
      assert Pending(q) == sync;
    }
  }

  /** Whatever a game asks and whatever logs it is fed: every answer fed was matched, was discarded
      or is pending, in order and once; a miss is an unanswered call or a discarded answer; and
      every log that is queued finds the seat last logged by all before it. */
  lemma {:induction false} EveryAnswerIsAccountedFor(p: Replay, b: Book, acts: seq<Act>)
    requires Valid(p) && Balanced(p, b)
    ensures Balanced(Run(p, b, acts).0, Run(p, b, acts).1)
    decreases |acts|
  {
    hide Balanced, QueueLog, Do, Entered;
    if acts != [] {
      match acts[0] {
        case Feed(bytes) => FeedBalances(p, b, bytes);
        case Play(call) => PlayBalances(p, b, call);
        case FireEvent => FireBalances(p, b);
      }
      EveryAnswerIsAccountedFor(Act1(p, acts[0]), Entered(b, acts[0]), acts[1..]);
    }
  }

  lemma FireBalances(p: Replay, b: Book)
    requires Valid(p) && Balanced(p, b)
    ensures Balanced(Fire(p).0, Entered(b, FireEvent))
  {
    assert Pending(Fire(p).0) == Pending(p);
  }

  lemma FreshBalances()
    ensures Valid(FRESH) && Balanced(FRESH, EMPTY)
  {
  }

  /** The same, from the moment the driver goes in. */
  lemma Accounting(acts: seq<Act>, next: seq<byte>)
    ensures var (p, b) := Run(FRESH, EMPTY, acts);
            && AnswersOf(b.fates) + Answers(Pending(p)) == b.fed
            && p.misses == b.unanswered + Discards(b.fates)
            && (Parse(next).Some? ==> SeatOf(QueueLog(p, next, false).0) == LastSeat(b.entries, Seat(0, 0)))
            && (Parse(next).None? ==> QueueLog(p, next, false) == (p, 0))
  {
    hide *;
    FreshBalances();
    EveryAnswerIsAccountedFor(FRESH, EMPTY, acts);
    ReadTheBook(Run(FRESH, EMPTY, acts).0, Run(FRESH, EMPTY, acts).1, next);
  }

  lemma ReadTheBook(p: Replay, b: Book, next: seq<byte>)
    requires Valid(p) && Balanced(p, b)
    ensures AnswersOf(b.fates) + Answers(Pending(p)) == b.fed
    ensures p.misses == b.unanswered + Discards(b.fates)
    ensures Parse(next).Some? ==> SeatOf(QueueLog(p, next, false).0) == LastSeat(b.entries, Seat(0, 0))
    ensures Parse(next).None? ==> QueueLog(p, next, false) == (p, 0)
  {
    hide Parse, Answers, LastSeat, Discards;
    FeedBalances(p, b, next);
  }
}
