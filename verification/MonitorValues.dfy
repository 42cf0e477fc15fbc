/**
  The values of watches: how bytes are told apart, how they are read as numbers, and when a change
  of that number pauses the game.
 */
module MonitorValues {
  import opened Words
  import opened Wrappers

  type i64 = w: int | -0x8000_0000_0000_0000 <= w < 0x8000_0000_0000_0000

  function LittleEndian(bytes: seq<byte>): (n: nat)
  {
    if bytes == [] then 0 else bytes[0] + 0x100 * LittleEndian(bytes[1..])
  }

  function BigEndian(bytes: seq<byte>): (n: nat)
  {
    if bytes == [] then 0 else 0x100 * BigEndian(bytes[..|bytes| - 1]) + bytes[|bytes| - 1]
  }

  /** What tells one value from another: the bytes themselves while they fit 64 bits, else a hash. */
  function Pack(hash: seq<byte> -> nat, bytes: seq<byte>): nat
  {
    if |bytes| <= 8 then LittleEndian(bytes) else hash(bytes)
  }

  /** Values that fit are never confused. */
  lemma {:induction false} PackTellsApart(hash: seq<byte> -> nat, a: seq<byte>, b: seq<byte>)
    requires |a| == |b| <= 8
    ensures Pack(hash, a) == Pack(hash, b) <==> a == b
  {
    if Pack(hash, a) == Pack(hash, b) && a != [] {
      PackTellsApart(hash, a[1..], b[1..]);
      assert a == [a[0]] + a[1..] && b == [b[0]] + b[1..];
    }
  }

  datatype ValueDecode = ValueDecode(bigEndian: bool, signed: bool, bcd: bool)

  /** Two decimal digits a byte, most significant byte first. */
  function Decimal(bytes: seq<byte>): Option<nat>
  {
    if bytes == [] then Some(0)
    else
      var low := bytes[|bytes| - 1];
      match Decimal(bytes[..|bytes| - 1])
      case None => None
      case Some(high) => if low / 16 > 9 || low % 16 > 9 then None else Some(high * 100 + low / 16 * 10 + low % 16)
  }

  function Reversed(bytes: seq<byte>): (r: seq<byte>)
    ensures |r| == |bytes|
  {
    if bytes == [] then [] else Reversed(bytes[1..]) + [bytes[0]]
  }

  function Pow256(n: nat): (p: nat) ensures p >= 1 { if n == 0 then 1 else 0x100 * Pow256(n - 1) }

  /** The number the first 8 bytes hold; none when they are not decimal digits but should be. */
  function Decode(d: ValueDecode, all: seq<byte>): Option<int>
  {
    var bytes := if |all| > 8 then all[..8] else all;
    var ordered := if d.bigEndian then bytes else Reversed(bytes);
    if bytes == [] then Some(0)
    else if d.bcd then Decimal(ordered)
    else
      var raw := BigEndian(ordered);
      Some(if (d.signed || |bytes| == 8) && raw >= Pow256(|bytes|) / 2 then raw - Pow256(|bytes|) else raw)
  }

  lemma {:induction false} BigEndianBound(bytes: seq<byte>)
    ensures BigEndian(bytes) < Pow256(|bytes|)
  {
    if bytes != [] {
      BigEndianBound(bytes[..|bytes| - 1]);
    }
  }

  /** Whatever the bytes, the number fits 64 bits, so nothing is cut off on the way. */
  lemma DecodeFits(d: ValueDecode, bytes: seq<byte>)
    ensures Decode(d, bytes).Some? ==> -0x8000_0000_0000_0000 <= Decode(d, bytes).value < 0x8000_0000_0000_0000
    ensures Decode(d, bytes).None? ==> d.bcd
  {
    var b := if |bytes| > 8 then bytes[..8] else bytes;
    var ordered := if d.bigEndian then b else Reversed(b);
    BigEndianBound(ordered);
    PowersUpTo8();
    if d.bcd {
      DigitsBound(ordered);
    } else {
      PowerGrows(|b|);
    }
  }

  function Pow100(n: nat): (p: nat) ensures p >= 1 { if n == 0 then 1 else 100 * Pow100(n - 1) }

  lemma {:induction false} DigitsBound(bytes: seq<byte>)
    ensures Decimal(bytes).Some? ==> Decimal(bytes).value < Pow100(|bytes|)
    ensures |bytes| <= 8 ==> Pow100(|bytes|) <= 10000000000000000
  {
    if bytes != [] {
      DigitsBound(bytes[..|bytes| - 1]);
    }
    assert Pow100(8) == 10000000000000000 by {
      assert Pow100(2) == 10000 && Pow100(4) == 100000000 && Pow100(6) == 1000000000000;
    }
    Pow100Grows(|bytes|, 8);
  }

  lemma {:induction false} Pow100Grows(m: nat, n: nat)
    ensures m <= n ==> Pow100(m) <= Pow100(n)
    decreases n
  {
    if m < n {
      Pow100Grows(m, n - 1);
    }
  }

  lemma PowersUpTo8()
    ensures Pow256(7) == 0x100_0000_0000_0000 && Pow256(8) == 0x1_0000_0000_0000_0000
  {
    assert Pow256(2) == 0x1_0000 && Pow256(4) == 0x1_0000_0000 && Pow256(6) == 0x1_0000_0000_0000;
  }

  lemma {:induction false} PowerGrows(n: nat)
    ensures n <= 7 ==> Pow256(n) <= Pow256(7)
    decreases 7 - n
  {
    if n < 7 {
      PowerGrows(n + 1);
    }
  }

  // ---- Pause conditions ------------------------------------------------------------------------

  datatype TraceCondition =
    | Changes
    | Equals(value: i64)
    | NotEquals(value: i64)
    | GreaterThan(value: i64)
    | LessThan(value: i64)
    | IncreasedBy(step: i64)
    | DecreasedBy(step: i64)

  function WrapI64(n: int): i64
  {
    (n + 0x8000_0000_0000_0000) % 0x1_0000_0000_0000_0000 - 0x8000_0000_0000_0000
  }

  predicate Fires(c: TraceCondition, before: Option<int>, after: Option<int>, changed: bool)
  {
    changed &&
    if before.None? || after.None? then c.Changes?
    else
      match c
      case Changes => true
      case Equals(v) => after.value == v && before.value != v
      case NotEquals(v) => after.value != v && before.value == v
      case GreaterThan(v) => after.value > v && before.value <= v
      case LessThan(v) => after.value < v && before.value >= v
      case IncreasedBy(d) => WrapI64(after.value - before.value) == d
      case DecreasedBy(d) => WrapI64(before.value - after.value) == d
  }

  /** What the condition asks of a single value, where it is about one. */
  predicate Meets(c: TraceCondition, v: int)
  {
    match c
    case Equals(x) => v == x
    case NotEquals(x) => v != x
    case GreaterThan(x) => v > x
    case LessThan(x) => v < x
    case _ => false
  }

  predicate AboutOneValue(c: TraceCondition) { !c.Changes? && !c.IncreasedBy? && !c.DecreasedBy? }

  /** A value starts meeting such a condition, then goes on meeting it: it pauses once, on the frame
      it starts. `values` are successive readings, none of them undecodable. */
  function Pauses(c: TraceCondition, values: seq<int>): nat
  {
    if |values| < 2 then 0
    else (if Fires(c, Some(values[|values| - 2]), Some(values[|values| - 1]),
                   values[|values| - 2] != values[|values| - 1]) then 1 else 0)
         + Pauses(c, values[..|values| - 1])
  }

  /** How often the readings go from not meeting the condition to meeting it. */
  function Entries(c: TraceCondition, values: seq<int>): nat
  {
    if |values| < 2 then 0
    else (if !Meets(c, values[|values| - 2]) && Meets(c, values[|values| - 1]) then 1 else 0)
         + Entries(c, values[..|values| - 1])
  }

  lemma {:induction false} PausesOncePerEntry(c: TraceCondition, values: seq<int>)
    requires AboutOneValue(c)
    ensures Pauses(c, values) == Entries(c, values)
  {
    if |values| >= 2 {
      PausesOncePerEntry(c, values[..|values| - 1]);
    }
  }
}
