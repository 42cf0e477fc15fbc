/**
  Finding sections in a state, and loading one: what melonDS is given, what is put back, and what the
  buffer holds afterwards.
 */
module StateLoading {
  import opened Words
  import opened Wrappers
  import opened ExtraSection

  /** Where an extra section that ends the state starts, or 0. */
  function Trailing(b: seq<byte>, offset: nat): nat
    decreases |b| - offset
  {
    if offset + SECTION_HEADER_SIZE > |b| then 0
    else
      var length := ReadU32(b, offset + 4);
      if length < SECTION_HEADER_SIZE || length > |b| - offset then 0
      else if b[offset..offset + 4] == MAGIC && offset + length == |b| then offset
      else Trailing(b, offset + length)
  }

  /** Sections follow one another from `offset` to the end. */
  predicate Tiled(b: seq<byte>, offset: nat)
    decreases |b| - offset
  {
    offset == |b| ||
    (offset + SECTION_HEADER_SIZE <= |b|
     && var length := ReadU32(b, offset + 4);
        SECTION_HEADER_SIZE <= length <= |b| - offset && Tiled(b, offset + length))
  }

  // ---- The section is found, and so are the others ---------------------------------------------

  /** `full` is the state and one more section. */
  predicate OneSectionMore(state: seq<byte>, full: seq<byte>, offset: nat)
  {
    && offset <= |state| && |state| + SECTION_HEADER_SIZE <= |full|
    && full[offset..|state|] == state[offset..]
    && full[|state|..|state| + 4] == MAGIC
    && ReadU32(full, |state| + 4) == |full| - |state|
  }

  lemma WalkOn(state: seq<byte>, full: seq<byte>, offset: nat)
    requires OneSectionMore(state, full, offset) && offset + SECTION_HEADER_SIZE <= |state|
    ensures ReadU32(full, offset + 4) == ReadU32(state, offset + 4)
            && full[offset..offset + 4] == state[offset..offset + 4]
    ensures forall next :: offset <= next <= |state| ==> OneSectionMore(state, full, next)
  {
    assert forall k :: 0 <= k < |state| - offset ==>
           full[offset + k] == full[offset..|state|][k] == state[offset..][k] == state[offset + k];
    assert full[offset..offset + 4] == state[offset..offset + 4];
    forall next | offset <= next <= |state| ensures OneSectionMore(state, full, next) {
      assert full[next..|state|] == state[next..];
    }
  }

  lemma {:induction false} EarlierSectionsAreFound(state: seq<byte>, full: seq<byte>, magic: seq<byte>, offset: nat)
    requires OneSectionMore(state, full, offset) && Tiled(state, offset)
    ensures Find(full, magic, offset) ==
            if Find(state, magic, offset).Some? then Find(state, magic, offset)
            else if magic == MAGIC then Some((|state| + SECTION_HEADER_SIZE, |full| - |state| - SECTION_HEADER_SIZE))
            else None
    decreases |state| - offset
  {
    hide ReadU32;
    if offset < |state| {
      WalkOn(state, full, offset);
      var next := offset + ReadU32(state, offset + 4);
      if state[offset..offset + 4] != magic {
        EarlierSectionsAreFound(state, full, magic, next);
      }
    } else {
      assert Find(full, magic, |full|) == None;
    }
  }

  lemma {:induction false} TrailingIsFound(state: seq<byte>, full: seq<byte>, offset: nat)
    requires OneSectionMore(state, full, offset) && Tiled(state, offset)
    ensures Trailing(full, offset) == |state|
    decreases |state| - offset
  {
    hide ReadU32;
    if offset < |state| {
      WalkOn(state, full, offset);
      TrailingIsFound(state, full, offset + ReadU32(state, offset + 4));
    }
  }

  lemma AppendedShape(layout: Layout, x: Extras, state: seq<byte>)
    requires ExtrasOk(x) && Fits(layout, x, |state|, MAX_U32)
    ensures var full := Appended(layout, x, state);
            && |full| == |state| + SectionSize(layout, x)
            && ReadU32(full, 8) == |full|
            && full[..8] == state[..8] && full[12..|state|] == state[12..]
            && OneSectionMore(state, full, STATE_HEADER_SIZE)
            && full[|state| + SECTION_HEADER_SIZE..] == Payload(layout, x)
  {
    hide Payload, U32, ReadU32, WithLength, Header;
    PayloadSize(layout, x);
    var size, payload := SectionSize(layout, x), Payload(layout, x);
    RawShape(state, size, payload);
    var raw := state + Header(MAGIC, size) + payload;
    var full := Appended(layout, x, state);
    LengthIsOnlyThere(raw, |full|);
    assert full[12..|state|] == raw[12..|state|] == state[12..];
    assert full[STATE_HEADER_SIZE..|state|] == raw[STATE_HEADER_SIZE..|state|] == state[STATE_HEADER_SIZE..];
    ReadsTheSame(full, raw, |state| + 4);
    assert full[|state| + SECTION_HEADER_SIZE..|full|] == raw[|state| + SECTION_HEADER_SIZE..|full|] == payload;
    assert full[|state| + SECTION_HEADER_SIZE..|full|] == full[|state| + SECTION_HEADER_SIZE..];
  }

  lemma RawShape(state: seq<byte>, size: u32, payload: seq<byte>)
    requires |state| >= STATE_HEADER_SIZE
    ensures var raw := state + Header(MAGIC, size) + payload;
            && |raw| == |state| + SECTION_HEADER_SIZE + |payload|
            && raw[..|state|] == state
            && raw[|state|..|state| + 4] == MAGIC
            && ReadU32(raw, |state| + 4) == size
            && raw[|state| + SECTION_HEADER_SIZE..] == payload
  {
    hide U32, ReadU32;
    var zeros: seq<byte> := [0, 0, 0, 0, 0, 0, 0, 0];
    var raw := state + Header(MAGIC, size) + payload;
    assert raw == (state + MAGIC) + U32(size) + (zeros + payload);
    LongWordsFoundAt(state + MAGIC, size, zeros + payload);
  }

  lemma LengthIsOnlyThere(b: seq<byte>, n: u32)
    requires |b| >= STATE_HEADER_SIZE
    ensures var w := WithLength(b, n);
            && ReadU32(w, 8) == n && w[..8] == b[..8]
            && (forall i, j :: 12 <= i <= j <= |b| ==> w[i..j] == b[i..j])
  {
    LongWordsFoundAt(b[..8], n, b[12..]);
    var w := WithLength(b, n);
    assert forall k :: 12 <= k < |b| ==> w[k] == b[k];
    forall i, j | 12 <= i <= j <= |b| ensures w[i..j] == b[i..j] {
    }
  }

  lemma ReadsTheSame(a: seq<byte>, b: seq<byte>, at: nat)
    requires at + 4 <= |a| && at + 4 <= |b| && a[at..at + 4] == b[at..at + 4]
    ensures ReadU32(a, at) == ReadU32(b, at)
  {
    var x, y := a[at..at + 4], b[at..at + 4];
    assert x[0] == a[at] && x[1] == a[at + 1] && x[2] == a[at + 2] && x[3] == a[at + 3];
    assert y[0] == b[at] && y[1] == b[at + 1] && y[2] == b[at + 2] && y[3] == b[at + 3];
  }

  /** A state whose sections tile it, none of them extra: with the extra section appended its length
      is right, the section parses to what was saved, every other section is where it was, and
      nothing before the section changed but the length. */
  lemma AppendedIsSound(layout: Layout, x: Extras, state: seq<byte>)
    requires ExtrasOk(x) && Fits(layout, x, |state|, MAX_U32)
    requires Tiled(state, STATE_HEADER_SIZE) && Find(state, MAGIC, STATE_HEADER_SIZE).None?
    ensures var full := Appended(layout, x, state);
            var area := SavedArea(layout, x.firmware);
            && ReadU32(full, 8) == |full| && full[..8] == state[..8] && full[12..|state|] == state[12..]
            && ParseExtra(full)
               == Some(Extra(area.0, x.firmware[area.0..area.0 + area.1], Words32(x.registers), SaveAccessPoint(x.ap)))
            && Trailing(full, STATE_HEADER_SIZE) == |state|
            && (forall magic :: magic != MAGIC ==>
                Find(full, magic, STATE_HEADER_SIZE) == Find(state, magic, STATE_HEADER_SIZE))
  {
    hide Payload, ParsePayload, Tiled, Find, Trailing, SavedArea, ReadU32;
    var full := Appended(layout, x, state);
    AppendedShape(layout, x, state);
    EarlierSectionsAreFound(state, full, MAGIC, STATE_HEADER_SIZE);
    TrailingIsFound(state, full, STATE_HEADER_SIZE);
    PayloadRoundTrip(layout, x, []);
    assert full[|state| + SECTION_HEADER_SIZE..|full|] == full[|state| + SECTION_HEADER_SIZE..];
    assert Payload(layout, x) + [] == Payload(layout, x);
    forall magic | magic != MAGIC ensures Find(full, magic, STATE_HEADER_SIZE)
           == Find(state, magic, STATE_HEADER_SIZE) {
      EarlierSectionsAreFound(state, full, magic, STATE_HEADER_SIZE);
    }
  }

  // ---- Loading ---------------------------------------------------------------------------------

  /** melonDS: which states it takes, what a console is after loading one, and how far it has read then,
      which it writes into the buffer's length field. */
  datatype Engine<!C> = Engine(accepts: seq<byte> -> bool, restore: (C, seq<byte>) -> C, readUpTo: seq<byte> -> u32)

  datatype Console<C> = Console(core: C, extras: Extras)

  /** A length field that says where a trailing extra section starts is taken as the whole length. */
  function Given(b: seq<byte>): seq<byte>
    requires STATE_HEADER_SIZE <= |b| <= MAX_U32
  {
    var extra := Trailing(b, STATE_HEADER_SIZE);
    if extra != 0 && ReadU32(b, 8) == extra then WithLength(b, |b|) else b
  }

  predicate Loads<C>(engine: Engine<C>, b: seq<byte>)
  {
    STATE_HEADER_SIZE <= |b| <= MAX_U32 && engine.accepts(Given(b))
  }

  /** What the buffer holds once it was loaded, the length field put back last. */
  function BufferAfter<C>(engine: Engine<C>, b: seq<byte>): seq<byte>
    requires STATE_HEADER_SIZE <= |b| <= MAX_U32
  {
    var g := Given(b);
    Splice(WithLength(g, engine.readUpTo(g)), 8, b[8..12])
  }

  function Load<C>(engine: Engine<C>, layout: Layout, c: Console<C>, b: seq<byte>): (r: Console<C>)
    requires ExtrasOk(c.extras)
    ensures ExtrasOk(r.extras)
  {
    if Loads(engine, b) then Console(engine.restore(c.core, Given(b)), Restored(layout, c.extras, b)) else c
  }

  /** Whatever the state and whatever melonDS writes into its length, the buffer is as it was. */
  lemma LoadLeavesTheBuffer<C>(engine: Engine<C>, b: seq<byte>)
    requires STATE_HEADER_SIZE <= |b| <= MAX_U32
    ensures BufferAfter(engine, b) == b
  {
    hide Trailing;
    var g := Given(b);
    assert g[..8] == b[..8] && g[12..] == b[12..];
    assert WithLength(g, engine.readUpTo(g))[..8] == b[..8] && WithLength(g, engine.readUpTo(g))[12..] == b[12..];
    assert b == b[..8] + b[8..12] + b[12..];
  }

  /** The sections do not depend on the length field. */
  lemma {:induction false} LengthIsNoSection(b: seq<byte>, n: u32, magic: seq<byte>, offset: nat)
    requires |b| >= STATE_HEADER_SIZE && offset >= STATE_HEADER_SIZE
    ensures Find(WithLength(b, n), magic, offset) == Find(b, magic, offset)
    ensures Trailing(WithLength(b, n), offset) == Trailing(b, offset)
    decreases |b| - offset
  {
    hide WithLength, ReadU32;
    var w := WithLength(b, n);
    LengthIsOnlyThere(b, n);
    if offset + SECTION_HEADER_SIZE <= |b| {
      assert w[offset..offset + 4] == b[offset..offset + 4];
      assert w[offset + 4..offset + 8] == b[offset + 4..offset + 8];
      ReadsTheSame(w, b, offset + 4);
      var length := ReadU32(b, offset + 4);
      if SECTION_HEADER_SIZE <= length <= |b| - offset {
        LengthIsNoSection(b, n, magic, offset + length);
      }
    }
  }

  lemma LengthIsNotParsed(b: seq<byte>, n: u32)
    requires |b| >= STATE_HEADER_SIZE
    ensures ParseExtra(WithLength(b, n)) == ParseExtra(b)
  {
    hide Find, ParsePayload, U32;
    LengthIsNoSection(b, n, MAGIC, STATE_HEADER_SIZE);
    var found := Find(b, MAGIC, STATE_HEADER_SIZE);
    if found.Some? {
      var (at, length) := found.value;
      assert WithLength(b, n)[at..at + length] == b[at..at + length];
    }
  }

  /** A state of ours is given to melonDS whole, whether its length is the right one or the one an
      earlier load left in it, where melonDS stopped reading; and both load the same console. */
  lemma DamagedLengthLoadsTheSame<C>(engine: Engine<C>, layout: Layout, x: Extras, state: seq<byte>, c: Console<C>)
    requires ExtrasOk(x) && ExtrasOk(c.extras) && Fits(layout, x, |state|, MAX_U32)
    requires Tiled(state, STATE_HEADER_SIZE) && Find(state, MAGIC, STATE_HEADER_SIZE).None?
    ensures var full := Appended(layout, x, state);
            var damaged := WithLength(full, |state|);
            && Given(full) == full && Given(damaged) == full
            && Load(engine, layout, c, damaged) == Load(engine, layout, c, full)
            && BufferAfter(engine, damaged) == damaged
  {
    hide Find, Trailing, Tiled, ParseExtra, ReadU32, U32, Appended;
    AppendedShape(layout, x, state);
    var full := Appended(layout, x, state);
    var damaged := WithLength(full, |state|);
    AppendedIsSound(layout, x, state);
    LengthIsNoSection(full, |state|, MAGIC, STATE_HEADER_SIZE);
    LengthIsNotParsed(full, |state|);
    LengthIsOnlyThere(full, |state|);
    WithLengthTwice(full, |state|, |full|);
    assert Trailing(damaged, STATE_HEADER_SIZE) == |state|;
    assert Given(damaged) == WithLength(damaged, |full|) == full;
    LoadLeavesTheBuffer(engine, damaged);
  }

  lemma WithLengthTwice(b: seq<byte>, n: u32, m: u32)
    requires |b| >= STATE_HEADER_SIZE
    ensures WithLength(WithLength(b, n), m) == WithLength(b, m)
    ensures m == ReadU32(b, 8) ==> WithLength(b, m) == b
  {
    hide U32, ReadU32;
    assert WithLength(b, n)[..8] == b[..8] && WithLength(b, n)[12..] == b[12..];
    ReadU32Inverts(b, 8);
    assert b == b[..8] + b[8..12] + b[12..];
  }

  /** Loading a state of ours into a console with the same firmware layout brings back everything the
      section carries: the settings area, the registers and, with a sane packet length, the access
      point. Into any other console it brings back all but the firmware, which stays. */
  lemma ExtrasComeBack(layout: Layout, x: Extras, y: Extras, state: seq<byte>)
    requires ExtrasOk(x) && ExtrasOk(y) && Fits(layout, x, |state|, MAX_U32)
    requires Tiled(state, STATE_HEADER_SIZE) && Find(state, MAGIC, STATE_HEADER_SIZE).None?
    ensures var r := Restored(layout, y, Appended(layout, x, state));
            var area := SettingsArea(layout, x.firmware);
            && r.registers == x.registers && r.ap == Sane(x.ap)
            && (if area.Some? && SettingsArea(layout, y.firmware) == area
                then r.firmware == y.firmware[..area.value.0] + x.firmware[area.value.0..]
                else r.firmware == y.firmware)
            && (y == x ==> r == x.(ap := Sane(x.ap)))
  {
    hide Find, Trailing, Tiled, ParsePayload, Payload, ReadU32, U32, Words32, ReadWords, SaveAccessPoint,
         LoadAccessPoint, Appended, Splice;
    AppendedIsSound(layout, x, state);
    WordsRoundTrip(x.registers);
    AccessPointRoundTrip(x.ap);
    var area := SettingsArea(layout, x.firmware);
    if area.Some? {
      var (offset, length) := area.value;
      assert x.firmware[offset..offset + length] == x.firmware[offset..];
      if SettingsArea(layout, y.firmware) == area {
        SpliceTail(y.firmware, offset, x.firmware[offset..]);
        assert x.firmware == x.firmware[..offset] + x.firmware[offset..];
      }
    }
  }

  lemma SpliceTail(b: seq<byte>, at: nat, bytes: seq<byte>)
    requires at + |bytes| == |b|
    ensures Splice(b, at, bytes) == b[..at] + bytes
  {
  }

  /** The state loaded again from the buffer the first load left: nothing changes any more, exactly when
      melonDS took none of it or restores what it was given as it is, over a console it restored before.
      What the extra section carries is settled by the first load. */
  lemma LoadTwice<C>(engine: Engine<C>, layout: Layout, c: Console<C>, b: seq<byte>)
    requires ExtrasOk(c.extras) && STATE_HEADER_SIZE <= |b| <= MAX_U32
    ensures var once := Load(engine, layout, c, b);
      var twice := Load(engine, layout, once, BufferAfter(engine, b));
      && twice.extras == once.extras
      && (twice == once <==>
          !Loads(engine, b)
          || engine.restore(engine.restore(c.core, Given(b)), Given(b)) == engine.restore(c.core, Given(b)))
  {
    hide ParseExtra, Given, BufferAfter;
    LoadLeavesTheBuffer(engine, b);
    if ParseExtra(b).Some? {
      var e := ParseExtra(b).value;
      if SettingsArea(layout, c.extras.firmware) == Some((e.fwOffset as nat, |e.firmware|)) {
        SpliceTwice(c.extras.firmware, e.fwOffset, e.firmware);
      }
    }
  }

  lemma SpliceTwice(b: seq<byte>, at: nat, bytes: seq<byte>)
    requires at + |bytes| <= |b|
    ensures Splice(Splice(b, at, bytes), at, bytes) == Splice(b, at, bytes)
  {
  }
}
