/**
  Edits answered as written: which of them are in memory when the service is over, and which never are.
 */
module MonitorEdits {
  import opened Words
  import opened Wrappers
  import opened MonitorMemory
  import opened MonitorWrites
  import opened Monitor

  /** The bytes of an answer are where it says. */
  predicate InMemory(m: Memory, answer: Event)
    requires Shaped(m) && answer.Written?
  {
    Slice(m, answer.address, |answer.newBytes|) == Some(answer.newBytes)
  }

  /** One edit: refused, it changes nothing; answered as written, it was there already, or is made on top
      of what waited, or is owed. */
  lemma OneEdit(c: Console, e: Edit)
    requires Shaped(c.memory)
    ensures var (d, answer) := ApplyEdit(c, e);
      && SameButWrites(c, d)
      && (!answer.Written? || InMemory(c.memory, answer) ==> d == c)
      && (answer.Written? && !InMemory(c.memory, answer) ==>
            if AtOnce(c) then
              && d == c.(memory := WriteAt(Flushed(c), answer.address, answer.newBytes), waiting := [])
              && InMemory(d.memory, answer)
            else d.memory == c.memory && Owed(d) == Owed(c) + [Write(answer.address, answer.newBytes)])
  {
    hide Resolve, WriteAt, WriteAll, Slice, FlushWrites, Locate;
    var (d, answer) := ApplyEdit(c, e);
    if answer.Written? && !InMemory(c.memory, answer) {
      var w := Write(answer.address, answer.newBytes);
      assert d == EnqueueWrite(c, w).0;
      if AtOnce(c) {
        WriteIsMadeLast(c, w);
        WritesKeepMapping(c.memory, c.waiting, w.address, |w.data|);
        WriteIsRead(Flushed(c), w.address, w.data);
      } else {
        WriteIsMadeOrOwed(c, w);
      }
    }
  }

  /** The console after the first `n` edits. */
  function AfterEdits(c: Console, edits: seq<Edit>, n: nat): (d: Console)
    requires Shaped(c.memory) && n <= |edits|
    ensures Shaped(d.memory)
  {
    ApplyEdits(c, edits[..n]).0
  }

  function Answer(c: Console, edits: seq<Edit>, k: nat): Event
    requires Shaped(c.memory) && k < |edits|
  {
    ApplyEdit(AfterEdits(c, edits, k), edits[k]).1
  }

  lemma {:induction false} AnswersAre(c: Console, edits: seq<Edit>)
    requires Shaped(c.memory)
    ensures forall k :: 0 <= k < |edits| ==> ApplyEdits(c, edits).1[k] == Answer(c, edits, k)
    ensures forall k :: 0 <= k < |edits| ==>
            AfterEdits(c, edits, k + 1) == ApplyEdit(AfterEdits(c, edits, k), edits[k]).0
    ensures AfterEdits(c, edits, 0) == c && AfterEdits(c, edits, |edits|) == ApplyEdits(c, edits).0
  {
    hide ApplyEdit;
    assert edits[..|edits|] == edits;
    if edits != [] {
      var init := edits[..|edits| - 1];
      AnswersAre(c, init);
      forall k | 0 <= k < |edits|
        ensures ApplyEdits(c, edits).1[k] == Answer(c, edits, k)
        ensures AfterEdits(c, edits, k + 1) == ApplyEdit(AfterEdits(c, edits, k), edits[k]).0
      {
        assert edits[..k + 1][..k] == edits[..k];
        if k < |init| {
          assert init[..k] == edits[..k];
        }
      }
    }
  }

  /** What a later answer writes is apart from this one. */
  predicate NotOverwritten(c: Console, edits: seq<Edit>, k: nat)
    requires Shaped(c.memory) && k < |edits| && Answer(c, edits, k).Written?
  {
    var mine := Answer(c, edits, k);
    forall i :: k < i < |edits| && Answer(c, edits, i).Written? ==>
      Apart(Answer(c, edits, i).address, |Answer(c, edits, i).newBytes|, mine.address, |mine.newBytes|)
  }

  /** Edits apart from a range leave it as it is, or as the writes waiting make it, from the first edit on
      that has to be made. */
  lemma {:induction false} ElsewhereIsKept(c: Console, edits: seq<Edit>, from: nat, n: nat, address: u32, len: nat)
    requires Shaped(c.memory) && from <= n <= |edits|
    requires forall i :: from <= i < n && Answer(c, edits, i).Written? ==>
      Apart(Answer(c, edits, i).address, |Answer(c, edits, i).newBytes|, address, len)
    ensures var d, e := AfterEdits(c, edits, from), AfterEdits(c, edits, n);
      && (AtOnce(e) <==> AtOnce(d))
      && (!AtOnce(d) ==> e.memory == d.memory)
      && (AtOnce(d) ==> e == d || (e.waiting == [] && Slice(e.memory, address, len) == Slice(Flushed(d), address, len)))
    decreases n
  {
    hide ApplyEdit, ApplyEdits, Slice, WriteAt, WriteAll, Apart;
    if from < n {
      ElsewhereIsKept(c, edits, from, n - 1, address, len);
      AnswersAre(c, edits);
      var before, answer := AfterEdits(c, edits, n - 1), Answer(c, edits, n - 1);
      OneEdit(before, edits[n - 1]);
      if answer.Written? {
        WriteElsewhere(Flushed(before), answer.address, answer.newBytes, address, len);
      }
      if before.waiting == [] {
        NothingToFlush(before);
      }
    }
  }

  lemma NothingToFlush(c: Console)
    requires Shaped(c.memory) && c.waiting == []
    ensures Flushed(c) == c.memory
  {
  }

  /** An edit answered as written, and not overwritten by a later one, is in memory when the edits are over
      exactly when, put off, it was there before it was asked for; at once, when it had to be made, or
      was there and either nothing was made after it or what had waited left it there. */
  lemma EditsStand(c: Console, edits: seq<Edit>, k: nat)
    requires Shaped(c.memory) && k < |edits| && Answer(c, edits, k).Written? && NotOverwritten(c, edits, k)
    ensures var at, answer, end := AfterEdits(c, edits, k), Answer(c, edits, k), ApplyEdits(c, edits).0;
      && ApplyEdits(c, edits).1[k] == answer && (AtOnce(at) <==> AtOnce(c)) && (!AtOnce(c) ==> at.memory == c.memory)
      && (InMemory(end.memory, answer) <==>
          if AtOnce(c) then !InMemory(at.memory, answer) || end == at || InMemory(Flushed(at), answer)
          else InMemory(c.memory, answer))
      && (AtOnce(c) && c.waiting == [] ==> InMemory(end.memory, answer))
  {
    hide ApplyEdit, ApplyEdits, Slice, WriteAt, WriteAll, Apart;
    AnswersAre(c, edits);
    var at, answer := AfterEdits(c, edits, k), Answer(c, edits, k);
    var next := AfterEdits(c, edits, k + 1);
    OneEdit(at, edits[k]);
    ModeIsKept(c, edits, k);
    ElsewhereIsKept(c, edits, k + 1, |edits|, answer.address, |answer.newBytes|);
    if next.waiting == [] {
      NothingToFlush(next);
    }
    if at.waiting == [] {
      NothingToFlush(at);
    }
  }

  lemma {:induction false} ModeIsKept(c: Console, edits: seq<Edit>, n: nat)
    requires Shaped(c.memory) && n <= |edits|
    ensures var d := AfterEdits(c, edits, n);
      && SameButWrites(c, d) && (!AtOnce(c) ==> d.memory == c.memory)
      && (AtOnce(c) && c.waiting == [] ==> d.waiting == [])
    decreases n
  {
    hide ApplyEdit, ApplyEdits, Slice, WriteAt, WriteAll;
    AnswersAre(c, edits);
    if n > 0 {
      ModeIsKept(c, edits, n - 1);
      OneEdit(AfterEdits(c, edits, n - 1), edits[n - 1]);
    }
  }

  /** A later edit of the same range that is in memory has overwritten this one, unless it says the same. */
  lemma ALaterEditOverwrites(c: Console, edits: seq<Edit>, j: nat, k: nat)
    requires Shaped(c.memory) && j < k < |edits| && Answer(c, edits, j).Written? && Answer(c, edits, k).Written?
    requires Answer(c, edits, j).address == Answer(c, edits, k).address
    requires |Answer(c, edits, j).newBytes| == |Answer(c, edits, k).newBytes|
    requires NotOverwritten(c, edits, k) && AtOnce(c) && c.waiting == []
    ensures InMemory(ApplyEdits(c, edits).0.memory, Answer(c, edits, j)) <==>
            Answer(c, edits, j).newBytes == Answer(c, edits, k).newBytes
  {
    hide ApplyEdits, ApplyEdit, Slice, NotOverwritten;
    EditsStand(c, edits, k);
  }

  // ---- Never made ------------------------------------------------------------------------------

  /** The cable comes out, or a hold is given up for it: what was scheduled and what waits is dropped. */
  function EndLink(c: Console): Console
  {
    c.(holding := false, linked := false, waiting := [], scheduled := [])
  }

  /** An edit of a linked console answered as written while the link then ends: the bytes were never in
      memory, and nothing is owed that would put them there. */
  lemma AnEditCanBeLost(c: Console, edits: seq<Edit>, k: nat)
    requires Shaped(c.memory) && c.linked && k < |edits| && Answer(c, edits, k).Written?
             && !InMemory(c.memory, Answer(c, edits, k))
    ensures var end := EndLink(ApplyEdits(c, edits).0);
      && ApplyEdits(c, edits).1[k] == Answer(c, edits, k)
      && end.memory == c.memory && !InMemory(end.memory, Answer(c, edits, k)) && NothingOwed(end)
  {
    hide ApplyEdits, ApplyEdit, Slice;
    AnswersAre(c, edits);
    ModeIsKept(c, edits, |edits|);
  }
}
