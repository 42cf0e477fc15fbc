/**
  Comparing states whose command FIFOs are saved as raw ring buffers: each is rewritten in place to a
  form that forgets where the ring stands and what lies outside its occupied part.
 */
module FifoCanonical {
  import opened Words
  import opened Wrappers
  import opened ExtraSection
  import opened StateLoading

  const ENTRY: nat := 8
  const ENTRY_USED: nat := 5
  const FIFO_HEADER: nat := 12

  function End(at: nat, count: nat): nat { at + FIFO_HEADER + ENTRY * count }

  /** A FIFO that does not fit the state is left alone. */
  predicate Present(s: seq<byte>, at: nat, count: nat) { End(at, count) <= |s| }

  function Occupied(s: seq<byte>, at: nat, count: nat): (n: nat)
    requires Present(s, at, count)
    ensures n <= count
  {
    var n := ReadU32(s, at);
    if n < count then n else count
  }

  function ReadPosition(s: seq<byte>, at: nat, count: nat): nat
    requires Present(s, at, count)
  {
    ReadU32(s, at + 4) % (if count > 1 then count else 1)
  }

  /** Parameter and command of the entry `i` places behind the next to be read. */
  function Entry(s: seq<byte>, at: nat, count: nat, i: nat): (e: seq<byte>)
    requires Present(s, at, count) && i < count
    ensures |e| == ENTRY_USED
  {
    var slot := (ReadPosition(s, at, count) + i) % count;
    s[at + FIFO_HEADER + ENTRY * slot..at + FIFO_HEADER + ENTRY * slot + ENTRY_USED]
  }

  /** The occupied entries, in queue order. */
  function Queue(s: seq<byte>, at: nat, count: nat): (q: seq<seq<byte>>)
    requires Present(s, at, count)
    ensures |q| == Occupied(s, at, count) && forall i :: 0 <= i < |q| ==> |q[i]| == ENTRY_USED
  {
    var n := Occupied(s, at, count);
    seq(n, i requires 0 <= i < n => Entry(s, at, count, i))
  }

  predicate QueueOk(q: seq<seq<byte>>, count: nat)
  {
    |q| <= count && forall i :: 0 <= i < |q| ==> |q[i]| == ENTRY_USED
  }

  /** Entries from the first slot on, everything else zero. */
  function Laid(q: seq<seq<byte>>, count: nat): (b: seq<byte>)
    requires QueueOk(q, count)
    ensures |b| == ENTRY * count
  {
    seq(ENTRY * count, k requires 0 <= k < ENTRY * count =>
      if k / ENTRY < |q| && k % ENTRY < ENTRY_USED then q[k / ENTRY][k % ENTRY] else 0)
  }

  function Zeros(n: nat): (z: seq<byte>)
    ensures |z| == n
  {
    seq(n, _ => 0)
  }

  function Canonical(s: seq<byte>, at: nat, count: nat): (r: seq<byte>)
    ensures |r| == |s|
  {
    if !Present(s, at, count) then s
    else s[..at + 4] + Zeros(8) + Laid(Queue(s, at, count), count) + s[End(at, count)..]
  }

  // ---- What the canonical form keeps -----------------------------------------------------------

  lemma ZerosRead(s: seq<byte>, i: nat)
    requires i + 4 <= |s| && s[i..i + 4] == Zeros(4)
    ensures ReadU32(s, i) == 0
  {
    var z := s[i..i + 4];
    assert s[i] == z[0] && s[i + 1] == z[1] && s[i + 2] == z[2] && s[i + 3] == z[3];
  }

  /** The parts of the canonical form. */
  lemma CanonicalParts(s: seq<byte>, at: nat, count: nat)
    requires Present(s, at, count)
    ensures var c := Canonical(s, at, count);
            && c[..at + 4] == s[..at + 4] && c[End(at, count)..] == s[End(at, count)..]
            && c[at + 4..at + FIFO_HEADER] == Zeros(8)
            && c[at + FIFO_HEADER..End(at, count)] == Laid(Queue(s, at, count), count)
            && ReadU32(c, at) == ReadU32(s, at) && ReadPosition(c, at, count) == 0
            && Occupied(c, at, count) == Occupied(s, at, count)
  {
    hide Laid, Queue, ReadU32;
    var c := Canonical(s, at, count);
    SubSlice(c, 0, at + 4, at, at + 4);
    SubSlice(s, 0, at + 4, at, at + 4);
    assert c[0..at + 4] == s[0..at + 4];
    ReadsTheSame(c, s, at);
    SubSlice(c, at + 4, at + FIFO_HEADER, 0, 4);
    assert Zeros(8)[0..4] == Zeros(4);
    ZerosRead(c, at + 4);
  }

  lemma LaidEntry(q: seq<seq<byte>>, count: nat, i: nat)
    requires QueueOk(q, count) && i < |q|
    ensures ENTRY * i + ENTRY_USED <= ENTRY * count
    ensures Laid(q, count)[ENTRY * i..ENTRY * i + ENTRY_USED] == q[i]
  {
    var e := Laid(q, count)[ENTRY * i..ENTRY * i + ENTRY_USED];
    forall k | 0 <= k < ENTRY_USED ensures e[k] == q[i][k] {
      assert (ENTRY * i + k) / ENTRY == i && (ENTRY * i + k) % ENTRY == k;
    }
  }

  /** The occupied entries come out of the canonical form as they went in, in the same order. */
  lemma QueueIsKept(s: seq<byte>, at: nat, count: nat)
    requires Present(s, at, count)
    ensures Queue(Canonical(s, at, count), at, count) == Queue(s, at, count)
  {
    hide Canonical, Laid, Occupied, ReadPosition, Entry;
    CanonicalParts(s, at, count);
    var c, q := Canonical(s, at, count), Queue(s, at, count);
    forall i | 0 <= i < |q| ensures Entry(c, at, count, i) == q[i] {
      LaidEntry(q, count, i);
      EntryOfLaid(c, at, count, i, Laid(q, count));
    }
    assert Queue(c, at, count) == q;
  }

  lemma SubSlice(s: seq<byte>, lo: nat, hi: nat, i: nat, j: nat)
    requires i <= j && lo + j <= hi <= |s|
    ensures s[lo..hi][i..j] == s[lo + i..lo + j]
  {
    var x, y := s[lo..hi][i..j], s[lo + i..lo + j];
    forall k | 0 <= k < j - i ensures x[k] == y[k] {
      assert s[lo..hi][i + k] == s[lo + (i + k)];
    }
  }

  lemma EntryOfLaid(c: seq<byte>, at: nat, count: nat, i: nat, laid: seq<byte>)
    requires Present(c, at, count) && i < count && ReadPosition(c, at, count) == 0
    requires c[at + FIFO_HEADER..End(at, count)] == laid
    ensures Entry(c, at, count, i) == laid[ENTRY * i..ENTRY * i + ENTRY_USED]
  {
    assert (0 + i) % count == i;
    var from := at + FIFO_HEADER + ENTRY * i;
    SubSlice(c, at + FIFO_HEADER, End(at, count), ENTRY * i, ENTRY * i + ENTRY_USED);
  }

  lemma CanonicalTwice(s: seq<byte>, at: nat, count: nat)
    ensures Canonical(Canonical(s, at, count), at, count) == Canonical(s, at, count)
  {
    hide Laid, Queue;
    if Present(s, at, count) {
      CanonicalParts(s, at, count);
      QueueIsKept(s, at, count);
    }
  }

  /** The same occupancy word and the same occupied entries, wherever the ring stands. */
  predicate SameFifo(a: seq<byte>, b: seq<byte>, at: nat, count: nat)
    requires |a| == |b|
  {
    Present(a, at, count) ==> ReadU32(a, at) == ReadU32(b, at) && Queue(a, at, count) == Queue(b, at, count)
  }

  /** Which bytes belong to the FIFO. */
  predicate Covered(len: nat, at: nat, count: nat, k: nat) { End(at, count) <= len && at <= k < End(at, count) }

  /** Two states are told apart by their canonical forms exactly when they differ outside the FIFO, in
      its occupancy or in its occupied entries. */
  lemma EqualWhenSame(a: seq<byte>, b: seq<byte>, at: nat, count: nat)
    requires |a| == |b|
    ensures Canonical(a, at, count) == Canonical(b, at, count) <==>
            SameFifo(a, b, at, count) && forall k :: 0 <= k < |a| && !Covered(|a|, at, count, k) ==> a[k] == b[k]
  {
    hide Laid, Queue, ReadU32;
    var ca, cb := Canonical(a, at, count), Canonical(b, at, count);
    if Present(a, at, count) {
      CanonicalParts(a, at, count);
      CanonicalParts(b, at, count);
      QueueIsKept(a, at, count);
      QueueIsKept(b, at, count);
      if ca == cb {
        forall k | 0 <= k < |a| && !Covered(|a|, at, count, k) ensures a[k] == b[k] {
          OutsideIsKept(a, at, count, k);
          OutsideIsKept(b, at, count, k);
        }
      }
      if SameFifo(a, b, at, count) && (forall k :: 0 <= k < |a| && !Covered(|a|, at, count, k) ==> a[k] == b[k]) {
        assert a[..at] == b[..at] && a[End(at, count)..] == b[End(at, count)..];
        ReadU32Inverts(a, at);
        ReadU32Inverts(b, at);
        assert a[..at + 4] == a[..at] + a[at..at + 4] && b[..at + 4] == b[..at] + b[at..at + 4];
      }
    }
  }

  /** Bytes outside the FIFO are as they were. */
  lemma OutsideIsKept(s: seq<byte>, at: nat, count: nat, k: nat)
    requires k < |s| && !Covered(|s|, at, count, k)
    ensures Canonical(s, at, count)[k] == s[k]
  {
    hide Laid, Queue, ReadU32;
    if Present(s, at, count) {
      CanonicalParts(s, at, count);
      var c, end := Canonical(s, at, count), End(at, count);
      if k < at {
        assert c[..at + 4][k] == s[..at + 4][k];
      } else {
        assert c[end..][k - end] == s[end..][k - end];
      }
    }
  }

  /** Rewriting one FIFO leaves another, that it does not overlap, the same. */
  lemma OtherFifoIsKept(s: seq<byte>, at: nat, count: nat, other: nat, otherCount: nat)
    requires End(at, count) <= other || End(other, otherCount) <= at
    requires Present(s, other, otherCount)
    ensures var c := Canonical(s, at, count);
            ReadU32(c, other) == ReadU32(s, other) && Queue(c, other, otherCount) == Queue(s, other, otherCount)
  {
    hide Canonical, Laid, ReadU32, Entry;
    var c := Canonical(s, at, count);
    var end := End(other, otherCount);
    forall k | other <= k < end ensures c[k] == s[k] {
      OutsideIsKept(s, at, count, k);
    }
    assert c[other..end] == s[other..end];
    SameBytesSameFifo(c, s, other, otherCount);
  }

  lemma SameBytesSameFifo(a: seq<byte>, b: seq<byte>, at: nat, count: nat)
    requires Present(a, at, count) && Present(b, at, count) && a[at..End(at, count)] == b[at..End(at, count)]
    ensures ReadU32(a, at) == ReadU32(b, at) && Queue(a, at, count) == Queue(b, at, count)
  {
    hide ReadU32, Entry;
    SubSlice(a, at, End(at, count), 0, 4);
    SubSlice(b, at, End(at, count), 0, 4);
    SubSlice(a, at, End(at, count), 4, 8);
    SubSlice(b, at, End(at, count), 4, 8);
    ReadsTheSame(a, b, at);
    ReadsTheSame(a, b, at + 4);
    forall i | 0 <= i < count ensures Entry(a, at, count, i) == Entry(b, at, count, i) {
      SameBytesSameEntry(a, b, at, count, i);
    }
  }

  lemma SameBytesSameEntry(a: seq<byte>, b: seq<byte>, at: nat, count: nat, i: nat)
    requires Present(a, at, count) && Present(b, at, count) && i < count
    requires a[at..End(at, count)] == b[at..End(at, count)] && ReadPosition(a, at, count) == ReadPosition(b, at, count)
    ensures Entry(a, at, count, i) == Entry(b, at, count, i)
  {
    hide ReadPosition;
    var slot := (ReadPosition(a, at, count) + i) % count;
    var from := at + FIFO_HEADER + ENTRY * slot;
    SubSlice(a, at, End(at, count), from - at, from - at + ENTRY_USED);
    SubSlice(b, at, End(at, count), from - at, from - at + ENTRY_USED);
  }

  // ---- The three FIFOs of a state --------------------------------------------------------------

  const COMMAND_FIFO := (16, 256)
  const COMMAND_PIPE := (16 + 2060, 4)
  const STALL_QUEUE := (1_563_889, 64)

  function AllCanonical(s: seq<byte>, gp3d: nat): (r: seq<byte>)
    ensures |r| == |s|
  {
    var s1 := Canonical(s, gp3d + COMMAND_FIFO.0, COMMAND_FIFO.1);
    var s2 := Canonical(s1, gp3d + COMMAND_PIPE.0, COMMAND_PIPE.1);
    Canonical(s2, gp3d + STALL_QUEUE.0, STALL_QUEUE.1)
  }

  predicate InAFifo(len: nat, gp3d: nat, k: nat)
  {
    || Covered(len, gp3d + COMMAND_FIFO.0, COMMAND_FIFO.1, k)
    || Covered(len, gp3d + COMMAND_PIPE.0, COMMAND_PIPE.1, k)
    || Covered(len, gp3d + STALL_QUEUE.0, STALL_QUEUE.1, k)
  }

  /** One more FIFO, apart from those still to come, leaves the question as it was. */
  lemma OneFifo(a: seq<byte>, b: seq<byte>, at: nat, count: nat, other: nat, otherCount: nat)
    requires |a| == |b| && (End(at, count) <= other || End(other, otherCount) <= at)
    ensures SameFifo(Canonical(a, at, count), Canonical(b, at, count), other, otherCount)
            == SameFifo(a, b, other, otherCount)
  {
    hide Canonical, Queue, ReadU32;
    if Present(a, other, otherCount) {
      OtherFifoIsKept(a, at, count, other, otherCount);
      OtherFifoIsKept(b, at, count, other, otherCount);
    }
  }

  lemma OneFifoOutside(a: seq<byte>, b: seq<byte>, at: nat, count: nat, k: nat)
    requires |a| == |b| && k < |a| && SameFifo(a, b, at, count)
    ensures Canonical(a, at, count)[k] == Canonical(b, at, count)[k] <==> Covered(|a|, at, count, k) || a[k] == b[k]
  {
    hide Queue, ReadU32, Laid;
    if Covered(|a|, at, count, k) {
      SameInside(a, b, at, count);
      var ca, cb := Canonical(a, at, count), Canonical(b, at, count);
      assert ca[at..End(at, count)][k - at] == cb[at..End(at, count)][k - at];
    } else {
      OutsideIsKept(a, at, count, k);
      OutsideIsKept(b, at, count, k);
    }
  }

  lemma SameInside(a: seq<byte>, b: seq<byte>, at: nat, count: nat)
    requires |a| == |b| && Present(a, at, count) && SameFifo(a, b, at, count)
    ensures Canonical(a, at, count)[at..End(at, count)] == Canonical(b, at, count)[at..End(at, count)]
  {
    hide Queue, ReadU32, Laid, Canonical;
    CanonicalParts(a, at, count);
    CanonicalParts(b, at, count);
    var ca, cb := Canonical(a, at, count), Canonical(b, at, count);
    ReadU32Inverts(ca, at);
    ReadU32Inverts(cb, at);
    assert ca[at..End(at, count)]
           == ca[at..at + 4] + ca[at + 4..at + FIFO_HEADER] + ca[at + FIFO_HEADER..End(at, count)];
    assert cb[at..End(at, count)]
           == cb[at..at + 4] + cb[at + 4..at + FIFO_HEADER] + cb[at + FIFO_HEADER..End(at, count)];
  }

  /** Two states come out equal exactly when they agree outside the three FIFOs, and each FIFO has the
      same occupancy and the same occupied entries in both. */
  lemma AllEqualWhenSame(a: seq<byte>, b: seq<byte>, gp3d: nat)
    requires |a| == |b|
    ensures AllCanonical(a, gp3d) == AllCanonical(b, gp3d) <==>
            && SameFifo(a, b, gp3d + COMMAND_FIFO.0, COMMAND_FIFO.1)
            && SameFifo(a, b, gp3d + COMMAND_PIPE.0, COMMAND_PIPE.1)
            && SameFifo(a, b, gp3d + STALL_QUEUE.0, STALL_QUEUE.1)
            && forall k :: 0 <= k < |a| && !InAFifo(|a|, gp3d, k) ==> a[k] == b[k]
  {
    hide Canonical, SameFifo, ReadU32, Covered;
    var (p, n) := (gp3d + COMMAND_FIFO.0, COMMAND_FIFO.1);
    var (p', n') := (gp3d + COMMAND_PIPE.0, COMMAND_PIPE.1);
    var (p'', n'') := (gp3d + STALL_QUEUE.0, STALL_QUEUE.1);
    var a1, b1 := Canonical(a, p, n), Canonical(b, p, n);
    var a2, b2 := Canonical(a1, p', n'), Canonical(b1, p', n');
    OneFifo(a, b, p, n, p', n');
    OneFifo(a, b, p, n, p'', n'');
    OneFifo(a1, b1, p', n', p'', n'');
    OneFifo(a1, b1, p', n', p, n);
    OwnFifo(a, b, p, n);
    OwnFifo(a1, b1, p', n');
    EqualWhenSame(a2, b2, p'', n'');
    if AllCanonical(a, gp3d) == AllCanonical(b, gp3d) {
      EqualBytesSameFifo(a2, b2, p, n, p'', n'');
      EqualBytesSameFifo(a2, b2, p', n', p'', n'');
    }
    if SameFifo(a, b, p, n) && SameFifo(a, b, p', n') {
      forall k | 0 <= k < |a|
        ensures a2[k] == b2[k] <==> Covered(|a|, p, n, k) || Covered(|a|, p', n', k) || a[k] == b[k]
      {
        OneFifoOutside(a, b, p, n, k);
        OneFifoOutside(a1, b1, p', n', k);
      }
    }
  }

  /** Nor does rewriting a FIFO change whether it is the same in both. */
  lemma OwnFifo(a: seq<byte>, b: seq<byte>, at: nat, count: nat)
    requires |a| == |b|
    ensures SameFifo(Canonical(a, at, count), Canonical(b, at, count), at, count) == SameFifo(a, b, at, count)
  {
    hide Canonical, Queue, ReadU32;
    if Present(a, at, count) {
      CanonicalParts(a, at, count);
      CanonicalParts(b, at, count);
      QueueIsKept(a, at, count);
      QueueIsKept(b, at, count);
    }
  }

  /** States that agree outside one FIFO have the same in any other. */
  lemma EqualBytesSameFifo(a: seq<byte>, b: seq<byte>, at: nat, count: nat, other: nat, otherCount: nat)
    requires |a| == |b| && (End(at, count) <= other || End(other, otherCount) <= at)
    requires forall k :: 0 <= k < |a| && !Covered(|a|, other, otherCount, k) ==> a[k] == b[k]
    ensures SameFifo(a, b, at, count)
  {
    hide ReadU32, Queue;
    if Present(a, at, count) {
      assert a[at..End(at, count)] == b[at..End(at, count)];
      SameBytesSameFifo(a, b, at, count);
    }
  }

  // ---- In place --------------------------------------------------------------------------------

  method CanonicalizeFifo(state: array<byte>, at: nat, count: nat)
    modifies state
    ensures state[..] == Canonical(old(state[..]), at, count)
  {
    hide Queue, Laid;
    var end := at + FIFO_HEADER + ENTRY * count;
    if end > state.Length { return; }
    ghost var s := state[..];
    var canonical := CanonicalEntries(state, at, count);
    ghost var laid := canonical[..];
    var entries := at + FIFO_HEADER;
    forall k | at + 4 <= k < entries { state[k] := 0; }
    forall k | entries <= k < end { state[k] := canonical[k - entries]; }
    assert state[..] == s[..at + 4] + Zeros(8) + laid + s[end..];
  }

  /** The occupied entries from the first slot on. */
  method CanonicalEntries(state: array<byte>, at: nat, count: nat) returns (canonical: array<byte>)
    requires Present(state[..], at, count)
    ensures fresh(canonical) && canonical[..] == Laid(Queue(state[..], at, count), count)
  {
    hide ReadU32, Entry, LaidUpTo, Laid;
    ghost var s := state[..];
    var word := ReadU32(state[..], at);
    var occupied := if word < count then word else count;
    var read := ReadU32(state[..], at + 4) % (if count > 1 then count else 1);
    var entries := at + FIFO_HEADER;
    canonical := new byte[ENTRY * count](_ => 0);
    ghost var q := Queue(s, at, count);
    NothingLaid(canonical[..], q, count);
    for i := 0 to occupied
      invariant fresh(canonical) && canonical.Length == ENTRY * count && state[..] == s
      invariant LaidUpTo(canonical[..], q, count, i)
    {
      var src := entries + ENTRY * ((read + i) % count);
      EntryAt(s, at, count, i);
      assert state[src..src + ENTRY_USED] == s[src..src + ENTRY_USED] == q[i];
      ghost var before := canonical[..];
      CopyEntry(state, src, canonical, i);
      OneMoreLaid(before, canonical[..], q, count, i);
    }
    AllLaid(canonical[..], q, count);
  }

  predicate LaidUpTo(c: seq<byte>, q: seq<seq<byte>>, count: nat, i: nat)
    requires QueueOk(q, count)
  {
    && |c| == ENTRY * count && i <= |q|
    && forall k :: 0 <= k < |c| ==>
       c[k] == if k / ENTRY < i && k % ENTRY < ENTRY_USED then q[k / ENTRY][k % ENTRY] else 0
  }

  lemma NothingLaid(c: seq<byte>, q: seq<seq<byte>>, count: nat)
    requires QueueOk(q, count) && |c| == ENTRY * count && forall k :: 0 <= k < |c| ==> c[k] == 0
    ensures LaidUpTo(c, q, count, 0)
  {
  }

  lemma OneMoreLaid(c: seq<byte>, d: seq<byte>, q: seq<seq<byte>>, count: nat, i: nat)
    requires QueueOk(q, count) && i < |q| && LaidUpTo(c, q, count, i) && |d| == |c|
    requires forall k :: 0 <= k < |c| ==>
             d[k] == if ENTRY * i <= k < ENTRY * i + ENTRY_USED then q[i][k - ENTRY * i] else c[k]
    ensures LaidUpTo(d, q, count, i + 1)
  {
    forall k | 0 <= k < |c|
      ensures d[k] == if k / ENTRY < i + 1 && k % ENTRY < ENTRY_USED then q[k / ENTRY][k % ENTRY] else 0
    {
      assert k == ENTRY * (k / ENTRY) + k % ENTRY;
      assert ENTRY * i <= k < ENTRY * i + ENTRY_USED <==> k / ENTRY == i && k % ENTRY < ENTRY_USED;
    }
  }

  lemma AllLaid(c: seq<byte>, q: seq<seq<byte>>, count: nat)
    requires QueueOk(q, count) && LaidUpTo(c, q, count, |q|)
    ensures c == Laid(q, count)
  {
  }

  lemma EntryAt(s: seq<byte>, at: nat, count: nat, i: nat)
    requires Present(s, at, count) && i < Occupied(s, at, count)
    ensures var src := at + FIFO_HEADER + ENTRY * ((ReadPosition(s, at, count) + i) % count);
            src + ENTRY_USED <= End(at, count) && s[src..src + ENTRY_USED] == Queue(s, at, count)[i]
  {
  }

  method CopyEntry(state: array<byte>, src: nat, canonical: array<byte>, i: nat)
    requires src + ENTRY_USED <= state.Length && ENTRY * i + ENTRY <= canonical.Length && state != canonical
    modifies canonical
    ensures forall k :: 0 <= k < canonical.Length ==>
              canonical[k] == if ENTRY * i <= k < ENTRY * i + ENTRY_USED
              then state[src..src + ENTRY_USED][k - ENTRY * i] else old(canonical[k])
  {
    forall k | ENTRY * i <= k < ENTRY * i + ENTRY_USED { canonical[k] := state[src + (k - ENTRY * i)]; }
  }

  /** All three, one after another. */
  method CanonicalizeAll(state: array<byte>, gp3d: nat)
    modifies state
    ensures state[..] == AllCanonical(old(state[..]), gp3d)
  {
    CanonicalizeFifo(state, gp3d + COMMAND_FIFO.0, COMMAND_FIFO.1);
    CanonicalizeFifo(state, gp3d + COMMAND_PIPE.0, COMMAND_PIPE.1);
    CanonicalizeFifo(state, gp3d + STALL_QUEUE.0, STALL_QUEUE.1);
  }

  // ---- Sections, as the comparison finds them --------------------------------------------------

  /** Where a section starts; the same walk as the state loader's. */
  method FindSection(state: array<byte>, magic: seq<byte>) returns (at: Option<nat>)
    requires |magic| == 4
    ensures at == match Find(state[..], magic, STATE_HEADER_SIZE)
                  case None => None
                  case Some((payload, _)) => Some(payload - SECTION_HEADER_SIZE)
  {
    hide ReadU32;
    ghost var b := state[..];
    var offset := STATE_HEADER_SIZE;
    while offset + SECTION_HEADER_SIZE <= state.Length
      invariant Find(b, magic, offset) == Find(b, magic, STATE_HEADER_SIZE)
      decreases state.Length - offset
    {
      var length := ReadU32(state[..], offset + 4);
      if length < SECTION_HEADER_SIZE || offset + length > state.Length { return None; }
      assert b[offset..offset + 4] == state[offset..offset + 4];
      if state[offset..offset + 4] == magic { return Some(offset); }
      offset := offset + length;
    }
    return None;
  }

  /** The comparison's idea of a trailing extra section: the first of that name, when it ends the state. */
  function ExtraSectionStart(b: seq<byte>): Option<nat>
  {
    match Find(b, MAGIC, STATE_HEADER_SIZE)
    case None => None
    case Some((payload, length)) => if payload + length == |b| then Some(payload - SECTION_HEADER_SIZE) else None
  }

  /** Where it finds one the loader finds the same; it finds none where the loader does only in a state
      with an extra section in the middle as well. */
  lemma {:induction false} TrailingIsTheSame(b: seq<byte>, offset: nat)
    ensures var found := Find(b, MAGIC, offset);
            && (found.None? ==> Trailing(b, offset) == 0)
            && (found.Some? && found.value.0 + found.value.1 == |b| ==>
                Trailing(b, offset) == found.value.0 - SECTION_HEADER_SIZE)
            && (Trailing(b, offset) != 0 ==> found.Some?)
    decreases |b| - offset
  {
    hide ReadU32;
    if offset + SECTION_HEADER_SIZE <= |b| {
      var length := ReadU32(b, offset + 4);
      if SECTION_HEADER_SIZE <= length <= |b| - offset && b[offset..offset + 4] != MAGIC {
        TrailingIsTheSame(b, offset + length);
      }
    }
  }

  /** A state of ours, as made by the loader's own append, is cut exactly where its section starts. */
  lemma ExtraSectionIsCut(layout: Layout, x: Extras, state: seq<byte>)
    requires ExtrasOk(x) && Fits(layout, x, |state|, MAX_U32)
    requires Tiled(state, STATE_HEADER_SIZE) && Find(state, MAGIC, STATE_HEADER_SIZE).None?
    ensures ExtraSectionStart(Appended(layout, x, state)) == Some(|state|)
  {
    hide Find, Tiled, Appended, ReadU32;
    AppendedShape(layout, x, state);
    EarlierSectionsAreFound(state, Appended(layout, x, state), MAGIC, STATE_HEADER_SIZE);
  }
}
