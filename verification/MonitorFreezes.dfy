/**
  Frozen values, and the limits put on requests.
 */
module MonitorFreezes {
  import opened Words
  import opened Wrappers
  import opened MonitorMemory
  import opened MonitorWrites
  import opened Monitor

  predicate Held(m: Memory, f: Freeze)
    requires Shaped(m)
  {
    Slice(m, f.path.base, |f.bytes|) == Some(f.bytes)
  }

  /** There is memory to hold it in, and the tools may write it. */
  predicate Holdable(m: Memory, f: Freeze)
    requires Shaped(m)
  {
    Writable(m, f.path.base, |f.bytes|) && Slice(m, f.path.base, |f.bytes|).Some?
  }

  predicate Separate(a: Freeze, b: Freeze) { Apart(a.path.base, |a.bytes|, b.path.base, |b.bytes|) }

  /** Plain addresses, no two of which overlap. */
  predicate DirectAndApart(freezes: seq<Freeze>)
  {
    && (forall i :: 0 <= i < |freezes| ==> Direct(freezes[i].path))
    && (forall i, j :: 0 <= i < j < |freezes| ==> Separate(freezes[i], freezes[j]))
  }

  predicate NeedsRestore(m: Memory, f: Freeze)
    requires Shaped(m)
  {
    Holdable(m, f) && !Held(m, f)
  }

  function Counted(n: nat): nat { if n < MAX_RESTORES then n + 1 else n }

  /** A write made now only joins what is owed. */
  predicate Deferring(c: Console) { !c.playingBack && !AtOnce(c) }

  /** What a pass counts and flags, whatever becomes of its writes: by memory as it found it. */
  predicate CountsOne(freezes: seq<Freeze>, p: Pass, q: Pass, i: nat)
    requires PassOk(freezes, p) && PassOk(freezes, q) && i < |freezes|
  {
    var f := freezes[i];
    && q.restores
       == (if NeedsRestore(p.console.memory, f) then p.restores[i := (p.restores[i].0, Counted(p.restores[i].1))]
           else p.restores)
    && q.ok == p.ok[i := Writable(p.console.memory, f.path.base, |f.bytes|)]
    && (q.wrote <==> p.wrote || NeedsRestore(p.console.memory, f))
    && (!NeedsRestore(p.console.memory, f) ==> q.console == p.console)
  }

  /** At once: a restore is made on top of what was waiting. */
  lemma HoldOne(freezes: seq<Freeze>, p: Pass, i: nat)
    requires PassOk(freezes, p) && i < |freezes| && Direct(freezes[i].path) && AtOnce(p.console)
    ensures var q, f := Hold(freezes, p, i), freezes[i];
      && CountsOne(freezes, p, q, i)
      && (NeedsRestore(p.console.memory, f) ==>
            q.console == p.console.(memory := WriteAt(Flushed(p.console), f.path.base, f.bytes), waiting := []))
  {
    var f := freezes[i];
    if NeedsRestore(p.console.memory, f) {
      WriteIsMadeLast(p.console, Write(f.path.base, f.bytes));
    }
  }

  lemma HoldOneLater(freezes: seq<Freeze>, p: Pass, i: nat)
    requires PassOk(freezes, p) && i < |freezes| && Direct(freezes[i].path) && Deferring(p.console)
    ensures var q, f := Hold(freezes, p, i), freezes[i];
            && q.console.memory == p.console.memory && Deferring(q.console)
            && CountsOne(freezes, p, q, i)
            && Owed(q.console)
               == Owed(p.console) + (if NeedsRestore(p.console.memory, f) then [Write(f.path.base, f.bytes)] else [])
  {
    var f := freezes[i];
    if NeedsRestore(p.console.memory, f) {
      WriteIsMadeOrOwed(p.console, Write(f.path.base, f.bytes));
    } else {
      assert Owed(p.console) + [] == Owed(p.console);
    }
  }

  predicate SomeNeedsRestore(m: Memory, freezes: seq<Freeze>, n: nat)
    requires Shaped(m) && n <= |freezes|
  {
    exists i :: 0 <= i < n && NeedsRestore(m, freezes[i])
  }

  /** The first freeze that has to be restored, or how many there are. */
  function FirstNeeding(m: Memory, freezes: seq<Freeze>): (k: nat)
    requires Shaped(m)
    ensures k <= |freezes| && !SomeNeedsRestore(m, freezes, k)
    ensures k < |freezes| ==> NeedsRestore(m, freezes[k])
  {
    if freezes == [] || NeedsRestore(m, freezes[0]) then 0
    else
      var k := FirstNeeding(m, freezes[1..]) + 1;
      assert forall i :: 1 <= i < k ==> freezes[i] == freezes[1..][i - 1];
      k
  }

  lemma SomeNeedsExactly(m: Memory, freezes: seq<Freeze>)
    requires Shaped(m)
    ensures SomeNeedsRestore(m, freezes, |freezes|) <==> FirstNeeding(m, freezes) < |freezes|
  {
  }

  // ---- One pass, at once -----------------------------------------------------------------------

  /** The memory freeze `i` is judged by: up to the first restore the one the pass found, and after it
      that with the waiting writes made. */
  function JudgedBy(freezes: seq<Freeze>, c: Console, i: nat): Memory
    requires Shaped(c.memory)
    ensures Shaped(JudgedBy(freezes, c, i))
  {
    if i <= FirstNeeding(c.memory, freezes) then c.memory else Flushed(c)
  }

  /** Held if it was or could be, by the memory `w`. */
  predicate Treated(w: Memory, m: Memory, f: Freeze)
    requires Shaped(w) && Shaped(m)
  {
    (Held(m, f) <==> Held(w, f) || Holdable(w, f)) && (Holdable(m, f) <==> Holdable(w, f))
  }

  predicate Untouched(w: Memory, m: Memory, f: Freeze)
    requires Shaped(w) && Shaped(m)
  {
    Slice(m, f.path.base, |f.bytes|) == Slice(w, f.path.base, |f.bytes|)
  }

  /** Counted exactly if it had to be restored, by the memory `m`; flagged by whether it can be written. */
  predicate CountedFor(freezes: seq<Freeze>, m: Memory, p: Pass, q: Pass, i: nat)
    requires PassOk(freezes, p) && PassOk(freezes, q) && i < |freezes| && Shaped(m)
  {
    var f := freezes[i];
    && q.restores[i] == (p.restores[i].0, if NeedsRestore(m, f) then Counted(p.restores[i].1) else p.restores[i].1)
    && q.ok[i] == Writable(m, f.path.base, |f.bytes|)
  }

  predicate Uncounted(freezes: seq<Freeze>, p: Pass, q: Pass, i: nat)
    requires PassOk(freezes, p) && PassOk(freezes, q) && i < |freezes|
  {
    q.restores[i] == p.restores[i] && q.ok[i] == p.ok[i]
  }

  predicate AllCounted(freezes: seq<Freeze>, p: Pass, q: Pass, n: nat)
    requires PassOk(freezes, p) && PassOk(freezes, q) && n <= |freezes|
  {
    && (forall i :: 0 <= i < n ==> CountedFor(freezes, JudgedBy(freezes, p.console, i), p, q, i))
    && (forall i :: n <= i < |freezes| ==> Uncounted(freezes, p, q, i))
  }

  /** What the first `n` turns did to the console: nothing up to the first restore; then what was waiting
      is made, and on top of it those freezes that need it from there on. */
  predicate Restored(freezes: seq<Freeze>, c: Console, d: Console, n: nat)
    requires Shaped(c.memory) && Shaped(d.memory) && n <= |freezes|
  {
    var k, w := FirstNeeding(c.memory, freezes), Flushed(c);
    if n <= k then d == c
    else
      && d == c.(memory := d.memory, waiting := []) && d.memory.regions == w.regions == c.memory.regions
      && (forall i :: k <= i < n ==> Treated(w, d.memory, freezes[i]))
      && (forall i :: 0 <= i < |freezes| && !(k <= i < n) ==> Untouched(w, d.memory, freezes[i]))
  }

  /** Where memory is the same, or only mapped the same, so is what is said of a freeze. */
  lemma SameWhereSame(m: Memory, n: Memory, f: Freeze)
    requires Shaped(m) && Shaped(n) && m.regions == n.regions && Untouched(m, n, f)
    ensures Held(m, f) == Held(n, f) && Holdable(m, f) == Holdable(n, f) && NeedsRestore(m, f) == NeedsRestore(n, f)
    ensures Writable(m, f.path.base, |f.bytes|) == Writable(n, f.path.base, |f.bytes|)
  {
  }

  lemma FlushedIsMappedTheSame(c: Console, f: Freeze)
    requires Shaped(c.memory)
    ensures Flushed(c).regions == c.memory.regions
    ensures Holdable(Flushed(c), f) == Holdable(c.memory, f)
    ensures Writable(Flushed(c), f.path.base, |f.bytes|) == Writable(c.memory, f.path.base, |f.bytes|)
  {
    hide WriteAll, Slice;
    WritesKeepMapping(c.memory, c.waiting, f.path.base, |f.bytes|);
  }

  /** A restore holds its freeze, and touches nothing apart from it. */
  lemma RestoreHolds(m: Memory, f: Freeze)
    requires Shaped(m) && Holdable(m, f)
    ensures var n := WriteAt(m, f.path.base, f.bytes);
      n.regions == m.regions && Held(n, f) && Holdable(n, f)
  {
    WriteIsRead(m, f.path.base, f.bytes);
  }

  lemma RestoreElsewhere(m: Memory, f: Freeze, g: Freeze)
    requires Shaped(m) && (Separate(f, g) || Separate(g, f))
    ensures Untouched(m, WriteAt(m, f.path.base, f.bytes), g)
  {
    WriteElsewhere(m, f.path.base, f.bytes, g.path.base, |g.bytes|);
  }

  /** The turn of freeze `n`. */
  lemma TurnRestores(freezes: seq<Freeze>, p: Pass, before: Pass, n: nat)
    requires PassOk(freezes, p) && PassOk(freezes, before) && n < |freezes| && DirectAndApart(freezes)
             && AtOnce(p.console)
    requires Restored(freezes, p.console, before.console, n)
    ensures AtOnce(before.console)
    ensures NeedsRestore(before.console.memory, freezes[n]) <==>
            NeedsRestore(JudgedBy(freezes, p.console, n), freezes[n])
    ensures Writable(before.console.memory, freezes[n].path.base, |freezes[n].bytes|)
            == Writable(JudgedBy(freezes, p.console, n), freezes[n].path.base, |freezes[n].bytes|)
    ensures Restored(freezes, p.console, Hold(freezes, before, n).console, n + 1)
  {
    hide Hold, Held, Holdable, Writable, Slice, WriteAll, WriteAt, Apart;
    var f, q := freezes[n], Hold(freezes, before, n);
    var k, w := FirstNeeding(p.console.memory, freezes), Flushed(p.console);
    HoldOne(freezes, before, n);
    FlushedIsMappedTheSame(p.console, f);
    if n > k {
      SameWhereSame(w, before.console.memory, f);
      assert Flushed(before.console) == before.console.memory by { NothingWaits(before.console); }
    }
    if n >= k && NeedsRestore(before.console.memory, f) {
      var m := if n > k then before.console.memory else w;
      RestoreHolds(m, f);
      forall i | 0 <= i < |freezes| && i != n
        ensures k <= i < n ==> Treated(w, q.console.memory, freezes[i])
        ensures !(k <= i < n) ==> Untouched(w, q.console.memory, freezes[i])
      {
        assert Separate(f, freezes[i]) || Separate(freezes[i], f);
        RestoreElsewhere(m, f, freezes[i]);
        SameWhereSame(m, q.console.memory, freezes[i]);
        if n > k {
          assert if k <= i < n then Treated(w, m, freezes[i]) else Untouched(w, m, freezes[i]);
        }
      }
    }
  }

  lemma NothingWaits(c: Console)
    requires Shaped(c.memory) && c.waiting == []
    ensures Flushed(c) == c.memory
  {
  }

  lemma {:induction false} PassHolds(freezes: seq<Freeze>, p: Pass, n: nat)
    requires PassOk(freezes, p) && n <= |freezes| && DirectAndApart(freezes) && AtOnce(p.console)
    ensures var q := HoldAll(freezes, p, n);
      && Restored(freezes, p.console, q.console, n) && AllCounted(freezes, p, q, n)
      && (q.wrote <==> p.wrote || FirstNeeding(p.console.memory, freezes) < n)
  {
    hide Hold, NeedsRestore, Writable, Restored, DirectAndApart;
    if n == 0 {
      assert Restored(freezes, p.console, p.console, 0) by { NothingRestored(freezes, p.console); }
    } else {
      PassHolds(freezes, p, n - 1);
      var before := HoldAll(freezes, p, n - 1);
      TurnRestores(freezes, p, before, n - 1);
      assert Direct(freezes[n - 1].path) by { DirectOne(freezes, n - 1); }
      HoldOne(freezes, before, n - 1);
      var q := HoldAll(freezes, p, n);
      forall i | 0 <= i < n ensures CountedFor(freezes, JudgedBy(freezes, p.console, i), p, q, i) {
        assert i < n - 1 ==> CountedFor(freezes, JudgedBy(freezes, p.console, i), p, before, i);
        assert Uncounted(freezes, p, before, n - 1);
      }
      forall i | n <= i < |freezes| ensures Uncounted(freezes, p, q, i) {
        assert Uncounted(freezes, p, before, i);
      }
    }
  }

  lemma NothingRestored(freezes: seq<Freeze>, c: Console)
    requires Shaped(c.memory)
    ensures Restored(freezes, c, c, 0)
  {
  }

  lemma DirectOne(freezes: seq<Freeze>, i: nat)
    requires DirectAndApart(freezes) && i < |freezes|
    ensures Direct(freezes[i].path)
  {
  }

  // ---- One pass, put off -----------------------------------------------------------------------

  /** The writes a pass makes for the first `n` freezes, by memory as it found it. */
  function Restores(m: Memory, freezes: seq<Freeze>, n: nat): seq<Write>
    requires Shaped(m) && n <= |freezes|
  {
    if n == 0 then []
    else Restores(m, freezes, n - 1)
         + (if NeedsRestore(m, freezes[n - 1]) then [Write(freezes[n - 1].path.base, freezes[n - 1].bytes)] else [])
  }

  /** One pass on a console that puts writes off: memory is as it was, the restores are owed and are
      counted all the same. */
  lemma {:induction false} PassIsOwed(freezes: seq<Freeze>, p: Pass, n: nat)
    requires PassOk(freezes, p) && n <= |freezes| && DirectAndApart(freezes) && Deferring(p.console)
    ensures var q := HoldAll(freezes, p, n);
      && q.console.memory == p.console.memory && Deferring(q.console)
      && Owed(q.console) == Owed(p.console) + Restores(p.console.memory, freezes, n)
      && (forall i :: 0 <= i < n ==> CountedFor(freezes, p.console.memory, p, q, i))
      && (forall i :: n <= i < |freezes| ==> Uncounted(freezes, p, q, i))
      && (q.wrote <==> p.wrote || SomeNeedsRestore(p.console.memory, freezes, n))
  {
    hide Hold, Owed, Deferring, NeedsRestore, Writable;
    if n > 0 {
      PassIsOwed(freezes, p, n - 1);
      var before, q := HoldAll(freezes, p, n - 1), HoldAll(freezes, p, n);
      HoldOneLater(freezes, before, n - 1);
      forall i | 0 <= i < n ensures CountedFor(freezes, p.console.memory, p, q, i) {
        assert i < n - 1 ==> CountedFor(freezes, p.console.memory, p, before, i);
        assert Uncounted(freezes, p, before, n - 1);
      }
      forall i | n <= i < |freezes| ensures Uncounted(freezes, p, q, i) {
        assert Uncounted(freezes, p, before, i);
      }
    } else {
      assert Owed(p.console) + [] == Owed(p.console);
    }
  }

  // ---- When freezes hold -----------------------------------------------------------------------

  predicate AllHeld(freezes: seq<Freeze>, before: Memory, after: Memory)
    requires Shaped(before) && Shaped(after)
  {
    forall i :: 0 <= i < |freezes| && Holdable(before, freezes[i]) ==> Held(after, freezes[i])
  }

  /** Nothing has to be restored; or restores are made at once, and what is made before the first of them,
      the writes waiting, leaves the freezes before it as they stood. */
  predicate Stand(freezes: seq<Freeze>, c: Console)
    requires Shaped(c.memory)
  {
    var k := FirstNeeding(c.memory, freezes);
    || k == |freezes|
    || (AtOnce(c) && forall i :: 0 <= i < k && Holdable(c.memory, freezes[i]) ==> Held(Flushed(c), freezes[i]))
  }

  /** What a console at once, and its memory, are when a pass is over. */
  lemma HeldAtOnce(freezes: seq<Freeze>, c: Console, d: Console)
    requires Shaped(c.memory) && Shaped(d.memory) && AtOnce(c) && Restored(freezes, c, d, |freezes|)
    ensures AtOnce(d)
    ensures AllHeld(freezes, c.memory, d.memory) <==> Stand(freezes, c)
    ensures FirstNeeding(d.memory, freezes) == |freezes| <==> Stand(freezes, c)
  {
    hide Held, Holdable, WriteAll;
    var k, w := FirstNeeding(c.memory, freezes), Flushed(c);
    if k < |freezes| {
      forall i | 0 <= i < |freezes|
        ensures Holdable(w, freezes[i]) == Holdable(c.memory, freezes[i]) == Holdable(d.memory, freezes[i])
        ensures i >= k && Holdable(c.memory, freezes[i]) ==> Held(d.memory, freezes[i])
        ensures i < k ==> Held(d.memory, freezes[i]) == Held(w, freezes[i])
      {
        FlushedIsMappedTheSame(c, freezes[i]);
        if i < k {
          SameWhereSame(w, d.memory, freezes[i]);
        } else {
          assert Treated(w, d.memory, freezes[i]);
        }
      }
    }
  }

  /** A service that freezes, on any console. Every freeze is counted exactly if it had to be restored: by
      memory as the pass found it up to the first such, and after that by memory with the writes that
      waited made, where writes are made at once. Put off, memory is as the game left it and exactly
      the restores are owed besides. All that can be held are when the edits begin, and freezing again
      at once writes nothing, exactly when `Stand` says so. */
  lemma FreezesHold(l: Local, c: Console, requestChanged: bool)
    requires LocalOk(l) && Shaped(c.memory) && DirectAndApart(l.freezes) && Freezing(l, c, requestChanged)
    ensures var q, n := FreezePass(l, c, requestChanged), |l.freezes|;
      var p := Pass(c, l.restores, l.freezeOk, false);
      && (q.wrote <==> SomeNeedsRestore(c.memory, l.freezes, n))
      && (AtOnce(c) ==> Restored(l.freezes, c, q.console, n) && AllCounted(l.freezes, p, q, n))
      && (!AtOnce(c) ==>
            && q.console.memory == c.memory && Owed(q.console) == Owed(c) + Restores(c.memory, l.freezes, n)
            && forall i :: 0 <= i < n ==> CountedFor(l.freezes, c.memory, p, q, i))
      && (AllHeld(l.freezes, c.memory, q.console.memory) <==> Stand(l.freezes, c))
      && (!HoldAll(l.freezes, q.(wrote := false), n).wrote <==> Stand(l.freezes, c))
  {
    hide HoldAll, Held, Holdable, Writable, Restored, AllCounted, Stand, CountedFor, FirstNeeding, AllHeld;
    var p, n := Pass(c, l.restores, l.freezeOk, false), |l.freezes|;
    var q := FreezePass(l, c, requestChanged);
    SomeNeedsExactly(c.memory, l.freezes);
    if AtOnce(c) {
      PassHolds(l.freezes, p, n);
      HeldAtOnce(l.freezes, c, q.console);
      PassHolds(l.freezes, q.(wrote := false), n);
    } else {
      PassIsOwed(l.freezes, p, n);
      PassIsOwed(l.freezes, q.(wrote := false), n);
      HeldIfNoneNeeds(l.freezes, c);
    }
  }

  lemma HeldIfNoneNeeds(freezes: seq<Freeze>, c: Console)
    requires Shaped(c.memory) && !AtOnce(c)
    ensures AllHeld(freezes, c.memory, c.memory) <==> Stand(freezes, c)
    ensures Stand(freezes, c) <==> !SomeNeedsRestore(c.memory, freezes, |freezes|)
  {
    hide Held, Holdable;
    SomeNeedsExactly(c.memory, freezes);
  }

  /** Memory that no freeze covers is as it was; or, if there was a restore to make at once, as the writes
      waiting make it. */
  lemma {:induction false} FreezesTouchNothingElse(freezes: seq<Freeze>, p: Pass, n: nat, address: u32, len: nat)
    requires PassOk(freezes, p) && n <= |freezes|
    requires forall i :: 0 <= i < n ==>
             Direct(freezes[i].path) && Apart(freezes[i].path.base, |freezes[i].bytes|, address, len)
    ensures var q := HoldAll(freezes, p, n);
      && (AtOnce(q.console) <==> AtOnce(p.console)) && q.console.playingBack == p.console.playingBack
      && (if AtOnce(p.console) && SomeNeedsRestore(p.console.memory, freezes, n)
          then q.console.waiting == []
               && Slice(q.console.memory, address, len) == Slice(Flushed(p.console), address, len)
          else q.console.memory == p.console.memory && (AtOnce(p.console) ==> q.console == p.console))
  {
    hide Hold, Slice, Apart, NeedsRestore, WriteAll, WriteAt;
    if n > 0 {
      FreezesTouchNothingElse(freezes, p, n - 1, address, len);
      var before := HoldAll(freezes, p, n - 1);
      if AtOnce(p.console) {
        HoldOne(freezes, before, n - 1);
        WriteElsewhere(Flushed(before.console), freezes[n - 1].path.base, freezes[n - 1].bytes, address, len);
        if before.console.waiting == [] {
          NothingWaits(before.console);
        }
      } else if p.console.playingBack {
        PlaybackHoldsNothing(freezes, before, n - 1);
      } else {
        HoldOneLater(freezes, before, n - 1);
      }
    }
  }

  lemma PlaybackHoldsNothing(freezes: seq<Freeze>, p: Pass, i: nat)
    requires PassOk(freezes, p) && i < |freezes| && p.console.playingBack
    ensures Hold(freezes, p, i).console == p.console
  {
  }

  /** Writes still waiting when the console is at a boundary again are made with the first restore, and
      can undo a freeze that stood: here byte 0 is held at 1, byte 1 has to be restored, and a write of
      9 to byte 0 was waiting. */
  lemma AWaitingWriteUndoesAFreeze()
    ensures var c := Console(TwoBytes(1, 0), 0, 0, false, false, false, false, [Write(0, [9])], []);
            var q := HoldAll(TWO_FREEZES, Pass(c, [(1, 0), (2, 0)], [true, true], false), 2);
            && AtOnce(c) && DirectAndApart(TWO_FREEZES)
            && Held(c.memory, TWO_FREEZES[0]) && q.console.memory == TwoBytes(9, 2)
               && !Held(q.console.memory, TWO_FREEZES[0])
  {
    hide Slice, WriteAt, Writable;
    var c := Console(TwoBytes(1, 0), 0, 0, false, false, false, false, [Write(0, [9])], []);
    var p := Pass(c, [(1, 0), (2, 0)], [true, true], false);
    TwoBytesAre(1, 0, 9);
    TwoBytesAre(9, 0, 2);
    TwoBytesAre(9, 2, 0);
    assert Hold(TWO_FREEZES, p, 0) == p;
    var writes := [Write(0, [9]), Write(1, [2])];
    assert c.waiting + [Write(1, [2])] == writes && writes[..1] == [Write(0, [9])];
    OneWrite(c.memory, Write(0, [9]));
    assert WriteAll(c.memory, writes) == WriteAt(TwoBytes(9, 0), 1, [2]);
    assert HoldAll(TWO_FREEZES, p, 2) == Hold(TWO_FREEZES, HoldAll(TWO_FREEZES, p, 1), 1);
    assert HoldAll(TWO_FREEZES, p, 1) == Hold(TWO_FREEZES, HoldAll(TWO_FREEZES, p, 0), 0);
  }

  const TWO_FREEZES := [Freeze(1, AddressPath(0, []), [1]), Freeze(2, AddressPath(1, []), [2])]

  function TwoBytes(a: byte, b: byte): (m: Memory)
    ensures Shaped(m)
  {
    Memory([Region(0, 2, true)], [[a, b]])
  }

  lemma TwoBytesAre(a: byte, b: byte, x: byte)
    ensures var m := TwoBytes(a, b);
      && Slice(m, 0, 1) == Some([a]) && Slice(m, 1, 1) == Some([b]) && Writable(m, 0, 1) && Writable(m, 1, 1)
      && WriteAt(m, 0, [x]) == TwoBytes(x, b) && WriteAt(m, 1, [x]) == TwoBytes(a, x)
  {
    var d := [a, b];
    assert d[0..1] == [a] && d[1..2] == [b];
    assert Spliced(d, 0, [x]) == [x, b] && Spliced(d, 1, [x]) == [a, x];
    assert [d][0 := [x, b]] == [[x, b]] && [d][0 := [a, x]] == [[a, x]];
  }

  // ---- Requests --------------------------------------------------------------------------------

  function TotalBytes(freezes: seq<Freeze>): nat
  {
    if freezes == [] then 0 else |freezes[0].bytes| + TotalBytes(freezes[1..])
  }

  predicate WithinLimits(r: Request)
  {
    && |r.traces| <= MAX_TRACES
    && (forall i :: 0 <= i < |r.traces| ==> 1 <= r.traces[i].len <= MAX_VALUE_LEN)
    && |r.freezes| <= MAX_FREEZES && TotalBytes(r.freezes) <= MAX_FREEZE_BYTES
  }

  lemma {:induction false} BudgetIsKept(freezes: seq<Freeze>, budget: nat)
    ensures TotalBytes(WithinBudget(freezes, budget)) <= budget && |WithinBudget(freezes, budget)| <= |freezes|
    ensures TotalBytes(freezes) <= budget ==> WithinBudget(freezes, budget) == freezes
    ensures forall f :: f in WithinBudget(freezes, budget) ==> f in freezes
    decreases |freezes|
  {
    if freezes != [] {
      BudgetIsKept(freezes[1..], budget);
      if |freezes[0].bytes| <= budget {
        BudgetIsKept(freezes[1..], budget - |freezes[0].bytes|);
      }
    }
  }

  /** What is taken is within the limits, and a request within them is taken as it is. */
  lemma ClampIsWithinLimits(r: Request)
    ensures WithinLimits(Clamp(r))
    ensures WithinLimits(r) ==> Clamp(r) == r
  {
    var freezes := if |r.freezes| > MAX_FREEZES then r.freezes[..MAX_FREEZES] else r.freezes;
    BudgetIsKept(freezes, MAX_FREEZE_BYTES);
    var traces := Clamp(r).traces;
    forall i | 0 <= i < |traces| ensures traces[i] == r.traces[i].(len := Clamped(r.traces[i].len)) {
    }
    if WithinLimits(r) {
      assert traces == r.traces;
    }
  }

  /** A freeze keeps its count, and a watch its baseline, across a new request; a new one starts afresh. */
  lemma TakingARequestKeepsCounts(l: Local, r: Request, generation: nat, i: nat, old_: nat)
    requires LocalOk(l)
    requires i < |Clamp(r).freezes|
    requires old_ < |l.restores| && l.restores[old_].0 == Clamp(r).freezes[i].id
    requires forall k :: 0 <= k < old_ ==> l.restores[k].0 != Clamp(r).freezes[i].id
    ensures TakeRequest(l, r, generation).restores[i] == l.restores[old_]
  {
    RestoresFound(l.restores, Clamp(r).freezes[i].id, old_);
  }

  lemma {:induction false} RestoresFound(restores: seq<(u32, nat)>, id: u32, k: nat)
    requires k < |restores| && restores[k].0 == id && forall j :: 0 <= j < k ==> restores[j].0 != id
    ensures RestoresOf(restores, id) == restores[k].1
  {
    if k > 0 {
      RestoresFound(restores[1..], id, k - 1);
    }
  }
}
