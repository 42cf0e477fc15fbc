/**
  Making and loading states in the buffers they are in: bytes written through a running pointer,
  sections walked with an offset, the length field put back in place.
 */
module StateBuffers {
  import opened Words
  import opened Wrappers
  import opened ExtraSection
  import opened StateLoading

  method Copy(a: array<byte>, at: nat, bytes: seq<byte>)
    requires at + |bytes| <= a.Length
    modifies a
    ensures a[..] == Splice(old(a[..]), at, bytes)
  {
    forall k | at <= k < at + |bytes| {
      a[k] := bytes[k - at];
    }
  }

  /** `a` is `before` with `written` at `at`. */
  ghost predicate Wrote(a: array<byte>, before: seq<byte>, at: nat, written: seq<byte>)
    reads a
  {
    |before| == a.Length && at + |written| <= a.Length && a[..] == Splice(before, at, written)
  }

  lemma SpliceGrows(before: seq<byte>, at: nat, written: seq<byte>, more: seq<byte>)
    requires at + |written| + |more| <= |before|
    ensures Splice(Splice(before, at, written), at + |written|, more) == Splice(before, at, written + more)
  {
    var first := Splice(before, at, written);
    assert first[..at + |written|] == before[..at] + written;
    assert first[at + |written| + |more|..] == before[at + |written| + |more|..];
  }

  /** Write what comes next, after `written`. */
  method Put(a: array<byte>, out: nat, bytes: seq<byte>, ghost before: seq<byte>, ghost at: nat,
      ghost written: seq<byte>)
    returns (next: nat)
    requires Wrote(a, before, at, written) && out == at + |written| && out + |bytes| <= a.Length
    modifies a
    ensures Wrote(a, before, at, written + bytes) && next == at + |written + bytes|
  {
    hide Splice;
    Copy(a, out, bytes);
    SpliceGrows(before, at, written, bytes);
    next := out + |bytes|;
  }

  /** The finished state is `data[..length]`, in a buffer with room for `capacity`. */
  method AppendExtraSection(layout: Layout, x: Extras, data: array<byte>, length: nat, capacity: nat)
      returns (total: nat)
    requires ExtrasOk(x) && length <= capacity <= data.Length
    modifies data
    ensures if Fits(layout, x, length, capacity) then
              && total == length + SectionSize(layout, x)
              && data[..total] == Appended(layout, x, old(data[..length]))
              && data[total..] == old(data[total..])
            else total == 0 && data[..] == old(data[..])
  {
    hide Splice, U32, SaveAccessPoint, WithLength, Payload, SavedArea, SettingsArea;
    var area := SavedArea(layout, x.firmware);
    var section := SectionSize(layout, x);
    if length < STATE_HEADER_SIZE || length + section > capacity || length + section > MAX_U32 {
      return 0;
    }
    total := length + section;
    ghost var before := data[..];
    ghost var state := data[..length];
    PayloadSize(layout, x);
    SpliceNothing(before, length);

    var out := Put(data, length, MAGIC, before, length, []);
    ghost var written := MAGIC;
    assert [] + MAGIC == MAGIC;
    out := Put(data, out, U32(section), before, length, written);
    written := written + U32(section);
    out := Put(data, out, [0, 0, 0, 0, 0, 0, 0, 0], before, length, written);
    written := written + [0, 0, 0, 0, 0, 0, 0, 0];
    assert written == Header(MAGIC, section);
    out := PutPayload(layout, x, data, out, before, length, written);

    Whole(before, length, Header(MAGIC, section) + Payload(layout, x));
    Copy(data, 8, U32(total));
    Finished(layout, x, before, length);
  }

  method PutPayload(layout: Layout, x: Extras, a: array<byte>, out: nat, ghost before: seq<byte>, ghost at: nat,
      ghost header: seq<byte>)
    returns (next: nat)
    requires ExtrasOk(x) && Wrote(a, before, at, header) && out == at + |header|
             && out + |Payload(layout, x)| <= a.Length
    modifies a
    ensures Wrote(a, before, at, header + Payload(layout, x)) && next == out + |Payload(layout, x)|
  {
    hide Splice, U32, SaveAccessPoint, Wrote;
    var area := SavedArea(layout, x.firmware);
    PayloadSize(layout, x);
    next := Put(a, out, U32(VERSION), before, at, header);
    ghost var written := header + U32(VERSION);
    next := Put(a, next, U32(area.0), before, at, written);
    written := written + U32(area.0);
    next := Put(a, next, U32(area.1), before, at, written);
    written := written + U32(area.1);
    next := Put(a, next, x.firmware[area.0..area.0 + area.1], before, at, written);
    written := written + x.firmware[area.0..area.0 + area.1];
    next := PutWords(a, next, x.registers, before, at, written);
    written := written + Words32(x.registers);
    ApSize(x.ap);
    next := Put(a, next, SaveAccessPoint(x.ap), before, at, written);
    written := written + SaveAccessPoint(x.ap);
    assert written == header + Payload(layout, x);
  }

  method PutWords(a: array<byte>, out: nat, words: seq<u32>, ghost before: seq<byte>, ghost at: nat,
      ghost written: seq<byte>)
    returns (next: nat)
    requires Wrote(a, before, at, written) && out == at + |written| && out + 4 * |words| <= a.Length
    modifies a
    ensures Wrote(a, before, at, written + Words32(words)) && next == out + 4 * |words|
  {
    hide Splice, U32, Wrote;
    next := out;
    assert written + Words32([]) == written;
    for i := 0 to |words|
      invariant next == out + 4 * i
      invariant Wrote(a, before, at, written + Words32(words[..i]))
    {
      next := Put(a, next, U32(words[i]), before, at, written + Words32(words[..i]));
      assert words[..i + 1][..i] == words[..i];
      assert written + Words32(words[..i]) + U32(words[i]) == written + Words32(words[..i + 1]);
    }
    assert words[..|words|] == words;
  }

  lemma SpliceNothing(b: seq<byte>, at: nat)
    requires at <= |b|
    ensures Splice(b, at, []) == b
  {
  }

  lemma Whole(before: seq<byte>, length: nat, section: seq<byte>)
    requires STATE_HEADER_SIZE <= length && length + |section| <= |before|
    ensures var b := Splice(before, length, section);
            b[..length + |section|] == before[..length] + section
            && b[length + |section|..] == before[length + |section|..]
  {
  }

  lemma Finished(layout: Layout, x: Extras, before: seq<byte>, length: nat)
    requires ExtrasOk(x) && length <= |before| && Fits(layout, x, length, |before|)
    ensures var total := length + SectionSize(layout, x);
            && SectionSize(layout, x) == |Header(MAGIC, SectionSize(layout, x)) + Payload(layout, x)|
            && var b := Splice(Splice(before, length, Header(MAGIC, SectionSize(layout, x)) + Payload(layout, x)), 8,
                               U32(total));
               b[..total] == Appended(layout, x, before[..length]) && b[total..] == before[total..]
  {
    hide Payload, U32, SavedArea, SettingsArea;
    PayloadSize(layout, x);
    var header, payload := Header(MAGIC, SectionSize(layout, x)), Payload(layout, x);
    var section := header + payload;
    var total := length + |section|;
    Whole(before, length, section);
    var b := Splice(before, length, section);
    assert Splice(b, 8, U32(total))[..total] == WithLength(b[..total], total);
    assert before[..length] + section == before[..length] + header + payload;
  }

  /** Walk the sections to the first of that name. */
  method FindStateSection(data: array<byte>, size: nat, magic: seq<byte>) returns (found: Option<(nat, nat)>)
    requires size <= data.Length && |magic| == 4
    ensures found == Find(data[..size], magic, STATE_HEADER_SIZE)
  {
    hide ReadU32;
    ghost var b := data[..size];
    var offset := STATE_HEADER_SIZE;
    while offset + SECTION_HEADER_SIZE <= size
      invariant Find(b, magic, offset) == Find(b, magic, STATE_HEADER_SIZE)
      decreases size - offset
    {
      var length := ReadU32(data[..size], offset + 4);
      if length < SECTION_HEADER_SIZE || length > size - offset { return None; }
      if data[offset..offset + 4] == magic {
        assert b[offset..offset + 4] == data[offset..offset + 4];
        return Some((offset + SECTION_HEADER_SIZE, length - SECTION_HEADER_SIZE));
      }
      assert b[offset..offset + 4] == data[offset..offset + 4];
      offset := offset + length;
    }
    return None;
  }

  method TrailingExtraSection(data: array<byte>, size: nat) returns (extra: nat)
    requires size <= data.Length
    ensures extra == Trailing(data[..size], STATE_HEADER_SIZE)
  {
    hide ReadU32;
    ghost var b := data[..size];
    var offset := STATE_HEADER_SIZE;
    while offset + SECTION_HEADER_SIZE <= size
      invariant Trailing(b, offset) == Trailing(b, STATE_HEADER_SIZE)
      decreases size - offset
    {
      var length := ReadU32(data[..size], offset + 4);
      if length < SECTION_HEADER_SIZE || length > size - offset { return 0; }
      assert b[offset..offset + 4] == data[offset..offset + 4];
      if data[offset..offset + 4] == MAGIC && offset + length == size { return offset; }
      offset := offset + length;
    }
    return 0;
  }

  /** melonDS reading a state, and leaving how far it read in the length field. */
  method Savestate<C>(engine: Engine<C>, console: C, data: array<byte>) returns (core: Option<C>)
    requires data.Length >= STATE_HEADER_SIZE
    modifies data
    ensures core == if engine.accepts(old(data[..])) then Some(engine.restore(console, old(data[..]))) else None
    ensures data[..] == WithLength(old(data[..]), engine.readUpTo(old(data[..])))
  {
    core := if engine.accepts(data[..]) then Some(engine.restore(console, data[..])) else None;
    ghost var before := data[..];
    Copy(data, 8, U32(engine.readUpTo(data[..])));
    assert data[..] == WithLength(before, engine.readUpTo(before));
  }

  /** Load the state that fills the buffer, leaving the buffer as it was. */
  method LoadState<C>(engine: Engine<C>, console: C, data: array<byte>) returns (core: Option<C>)
    modifies data
    ensures core == if Loads(engine, old(data[..])) then Some(engine.restore(console, Given(old(data[..])))) else None
    ensures data[..] == old(data[..])
  {
    hide Splice, WithLength, U32, ReadU32, Trailing;
    if data.Length < STATE_HEADER_SIZE || data.Length > MAX_U32 { return None; }
    ghost var b := data[..];
    var lengthField := data[8..12];
    var extra := TrailingExtraSection(data, data.Length);
    assert data[..data.Length] == b;
    if extra != 0 && ReadU32(data[..], 8) == extra {
      Copy(data, 8, U32(data.Length));
      WithLengthIsSplice(b, |b|);
    }
    assert data[..] == Given(b);
    core := Savestate(engine, console, data);
    Copy(data, 8, lengthField);
    assert lengthField == b[8..12];
    LoadLeavesTheBuffer(engine, b);
  }

  lemma WithLengthIsSplice(b: seq<byte>, n: u32)
    requires |b| >= STATE_HEADER_SIZE
    ensures WithLength(b, n) == Splice(b, 8, U32(n))
  {
  }

  /** The console's own copy of what the section carries. */
  class ConsoleExtras {
    const firmware: array<byte>
    const registers: array<u32>
    var ap: AccessPoint

    ghost predicate Valid()
      reads this, firmware, registers
    {
      ExtrasOk(Value())
    }

    ghost function Value(): Extras
      reads this, firmware, registers
    {
      Extras(firmware[..], registers[..], ap)
    }

    constructor (x: Extras)
      requires ExtrasOk(x)
      ensures Valid() && Value() == x && fresh(firmware) && fresh(registers)
    {
      firmware := new byte[|x.firmware|](i requires 0 <= i < |x.firmware| => x.firmware[i]);
      registers := new u32[|x.registers|](i requires 0 <= i < |x.registers| => x.registers[i]);
      ap := x.ap;
      new;
      assert firmware[..] == x.firmware && registers[..] == x.registers;
    }

    /** Put back what the state in `data` carries; whether it carried anything. */
    method FinishLoad(layout: Layout, data: array<byte>) returns (hadExtras: bool)
      requires Valid() && data != firmware
      modifies this, firmware, registers
      ensures Valid() && Value() == Restored(layout, old(Value()), data[..])
      ensures hadExtras == ParseExtra(data[..]).Some?
    {
      hide ReadU32, Find, LoadAccessPoint, Splice;
      var found := FindStateSection(data, data.Length, MAGIC);
      assert data[..data.Length] == data[..];
      if found.None? { return false; }
      var payload := data[found.value.0..found.value.0 + found.value.1];
      assert payload == data[..][found.value.0..found.value.0 + found.value.1];
      var parsed := ParsePayload(payload);
      if parsed.None? { return false; }
      var e := parsed.value;
      ghost var b, x := data[..], Value();
      assert ParseExtra(b) == Some(e);
      SetRegisters(e.registers);
      assert firmware[..] == x.firmware;
      ap := LoadAccessPoint(e.ap);
      if SettingsArea(layout, firmware[..]) == Some((e.fwOffset as nat, |e.firmware|)) {
        Copy(firmware, e.fwOffset, e.firmware);
      }
      assert data[..] == b;
      assert registers[..] == ReadWords(e.registers);
      assert Value() == Restored(layout, x, b);
      return true;
    }

    method SetRegisters(bytes: seq<byte>)
      requires |bytes| == 4 * registers.Length
      modifies registers
      ensures registers[..] == ReadWords(bytes)
    {
      hide ReadU32;
      for i := 0 to registers.Length
        invariant forall k :: 0 <= k < i ==> registers[k] == ReadU32(bytes, 4 * k)
      {
        registers[i] := ReadU32(bytes, 4 * i);
      }
      WordsAt(bytes);
    }
  }

  lemma {:induction false} WordsAt(bytes: seq<byte>)
    requires |bytes| % 4 == 0
    ensures forall k :: 0 <= k < |bytes| / 4 ==> ReadWords(bytes)[k] == ReadU32(bytes, 4 * k)
    decreases |bytes|
  {
    hide ReadU32;
    if bytes != [] {
      var init := bytes[..|bytes| - 4];
      WordsAt(init);
      forall k | 0 <= k < |init| / 4 ensures ReadU32(init, 4 * k) == ReadU32(bytes, 4 * k) {
        assert init[4 * k..4 * k + 4] == bytes[4 * k..4 * k + 4];
        ReadsTheSame(init, bytes, 4 * k);
      }
    }
  }
}
