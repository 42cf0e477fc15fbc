/**
  The console as the monitor sees it, and what becomes of a write to its memory.

  Between frames a write happens at once. While the console is held for a link, or in the middle of a
  frame, it waits; while the console is linked it is handed to the link, which makes it on both
  machines at a later frame. In all of these cases it counts as made.
 */
module MonitorWrites {
  import opened Words
  import opened Wrappers
  import opened MonitorMemory

  datatype Write = Write(address: u32, data: seq<byte>)

  /** `waiting` are the writes not made yet, `scheduled` those the link has been handed and not made. */
  datatype Console = Console(
    memory: Memory, frame: nat, epoch: nat, midFrame: bool, playingBack: bool,
    holding: bool, linked: bool, waiting: seq<Write>, scheduled: seq<Write>)

  /** One after another. */
  function WriteAll(m: Memory, writes: seq<Write>): Memory
    requires Shaped(m)
    ensures Shaped(WriteAll(m, writes))
  {
    if writes == [] then m
    else WriteAt(WriteAll(m, writes[..|writes| - 1]), writes[|writes| - 1].address, writes[|writes| - 1].data)
  }

  function FlushWrites(c: Console): (d: Console)
    requires Shaped(c.memory)
    ensures Shaped(d.memory)
  {
    if c.playingBack || c.holding then c
    else if c.linked then c.(scheduled := c.scheduled + c.waiting, waiting := [])
    else if c.midFrame then c
    else c.(memory := WriteAll(c.memory, c.waiting), waiting := [])
  }

  function EnqueueWrite(c: Console, w: Write): (r: (Console, bool))
    requires Shaped(c.memory)
    ensures Shaped(r.0.memory)
  {
    if c.playingBack then (c, false) else (FlushWrites(c.(waiting := c.waiting + [w])), true)
  }

  /** Memory is written only where it differs; unmapped memory never is. */
  function WriteIfChanged(c: Console, address: u32, bytes: seq<byte>): (r: (Console, bool))
    requires Shaped(c.memory)
    ensures Shaped(r.0.memory)
  {
    var current := Slice(c.memory, address, |bytes|);
    if c.playingBack || bytes == [] || current.None? || current.value == bytes then (c, false)
    else EnqueueWrite(c, Write(address, bytes))
  }

  // ---- When a write is made --------------------------------------------------------------------

  /** A write made now is made at once. */
  predicate AtOnce(c: Console) { !c.playingBack && !c.holding && !c.linked && !c.midFrame }

  /** ... and nothing from before is made along with it, or after it. */
  predicate NothingOwed(c: Console) { c.waiting == [] && c.scheduled == [] }

  /** The writes still to be made, in the order they will be: the link's, then those waiting. */
  function Owed(c: Console): seq<Write> { c.scheduled + c.waiting }

  /** All that a write can change about a console. */
  predicate SameButWrites(c: Console, d: Console)
  {
    d == c.(memory := d.memory, waiting := d.waiting, scheduled := d.scheduled)
  }

  /** A write that is taken is made at once, together with all that were waiting, or joins what is owed
      and leaves memory as it is: exactly by whether the console is at a frame boundary on its own. */
  lemma WriteIsMadeOrOwed(c: Console, w: Write)
    requires Shaped(c.memory) && !c.playingBack
    ensures var d := EnqueueWrite(c, w).0;
      && EnqueueWrite(c, w).1 && SameButWrites(c, d)
      && (if AtOnce(c) then d.memory == WriteAll(c.memory, c.waiting + [w]) && d.waiting == []
          && d.scheduled == c.scheduled
          else d.memory == c.memory && Owed(d) == Owed(c) + [w])
  {
    assert c.scheduled + (c.waiting + [w]) == c.scheduled + c.waiting + [w];
    assert c.scheduled + (c.waiting + [w]) + [] == c.scheduled + c.waiting + [w];
  }

  lemma OneWrite(m: Memory, w: Write)
    requires Shaped(m)
    ensures WriteAll(m, [w]) == WriteAt(m, w.address, w.data) && WriteAll(m, []) == m
  {
    assert [w][..0] == [];
  }

  /** Memory once the writes waiting are made. */
  function Flushed(c: Console): Memory
    requires Shaped(c.memory)
    ensures Shaped(Flushed(c))
  {
    WriteAll(c.memory, c.waiting)
  }

  /** At once, whatever was waiting: the write is made on top of that. */
  lemma WriteIsMadeLast(c: Console, w: Write)
    requires Shaped(c.memory) && AtOnce(c)
    ensures EnqueueWrite(c, w) == (c.(memory := WriteAt(Flushed(c), w.address, w.data), waiting := []), true)
  {
    assert (c.waiting + [w])[..|c.waiting|] == c.waiting;
  }

  lemma {:induction false} WritesKeepMapping(m: Memory, writes: seq<Write>, address: u32, len: nat)
    requires Shaped(m)
    ensures WriteAll(m, writes).regions == m.regions
    ensures Slice(WriteAll(m, writes), address, len).Some? == Slice(m, address, len).Some?
  {
    hide WriteAt, Slice;
    if writes != [] {
      WritesKeepMapping(m, writes[..|writes| - 1], address, len);
      var w := writes[|writes| - 1];
      WriteKeepsMapping(WriteAll(m, writes[..|writes| - 1]), w.address, w.data, address, len);
    }
  }
}
