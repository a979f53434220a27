/**
 The memory a PLC serves reads from and applies writes to.

 Ordinary word families hold 16-bit words, direct bit families hold bits numbered consecutively across banks, native
 families hold 32-bit points, and timers and counters also hold a contact and a preset.
 */
module PlcMemory {
  import Bits
  import Protocol
  import Device

  type Word = w: int | 0 <= w < 0x1_0000

  type Long = w: int | 0 <= w < 0x1_0000_0000

  /** A value as a caller sees it; a float stays the pair of words it was packed from, low word first. */
  datatype Value = Int(n: int) | Float(lo: Word, hi: Word) | Bool(b: bool) | Text(t: string)

  /** A bit, a 16-bit word, a 32-bit point or a timer preset of a family. */
  datatype Place =
    | BitPlace(family: Device.Family, position: nat)
    | WordPlace(family: Device.Family, position: nat)
    | LongPlace(family: Device.Family, position: nat)
    | PresetPlace(family: Device.Family, position: nat)

  type Cells = map<Place, nat>

  datatype Comment = Comment(family: Device.Family, number: nat)

  datatype Memory = Memory(cells: Cells, comments: map<Comment, string>)

  function Get(cells: Cells, place: Place): nat { if place in cells then cells[place] else 0 }

  /** The position of a device: its number, or its logical bit number where banks have sixteen bits. */
  function Position(f: Device.Family, n: nat): nat { if Device.BitBank(f) then Device.Logical(n) else n }

  /** The device number at a position. */
  function NumberAt(f: Device.Family, p: nat): nat { if Device.BitBank(f) then Device.FromLogical(p) else p }

  lemma NumberIsAt(f: Device.Family, p: nat)
    ensures Position(f, NumberAt(f, p)) == p
  {
    hide Device.Logical, Device.FromLogical;
    Device.LogicalIsBijection(0, p);
  }

  function WordAt(m: Memory, f: Device.Family, n: nat): Word {
    Get(m.cells, if Device.Native32(f) then LongPlace(f, n) else WordPlace(f, n)) % 0x1_0000
  }

  predicate BitAt(m: Memory, f: Device.Family, position: nat) { Get(m.cells, BitPlace(f, position)) != 0 }

  function Signed(n: int, half: int): int { if n < half then n else n - 2 * half }

  /** Two words as one 32-bit value, low word first. */
  function Double(lo: Word, hi: Word): Long { lo + hi * 0x1_0000 }

  /** Timers and counters answer a read with status, current and preset. */
  predicate Composite(f: Device.Family) { f == Device.T || f == Device.C }

  /** `count` bits from position `p` on as a number, lowest first. */
  function BitsFrom(cells: Cells, f: Device.Family, p: nat, count: nat): nat
    decreases count
  {
    if count == 0 then 0 else Get(cells, BitPlace(f, p)) % 2 + 2 * BitsFrom(cells, f, p + 1, count - 1)
  }

  /** What is stored at a position, in the width of the format or wider. */
  function Raw(cells: Cells, f: Device.Family, p: nat, format: Protocol.Format): nat {
    if Composite(f) then Get(cells, PresetPlace(f, p))
    else if Device.DirectBit(f) then
      if format.Bit? then (if Get(cells, BitPlace(f, p)) != 0 then 1 else 0)
      else BitsFrom(cells, f, p, Span(f, format))
    else if Device.Native32(f) then Get(cells, LongPlace(f, p))
    else if Device.Is32(format) then
      Double(Get(cells, WordPlace(f, p)) % 0x1_0000, Get(cells, WordPlace(f, p + 1)) % 0x1_0000)
    else Get(cells, WordPlace(f, p))
  }

  /** A stored number as the reply token of a format. */
  function Shown(v: nat, format: Protocol.Format): Value {
    match format
    case Bit => Int(if v == 0 then 0 else 1)
    case U => Int(v % 0x1_0000)
    case S => Int(Signed(v % 0x1_0000, 0x8000))
    case D => Int(v % 0x1_0000_0000)
    case L => Int(Signed(v % 0x1_0000_0000, 0x8000_0000))
    case H => Text(Protocol.Hex4(v % 0x1_0000))
  }

  /** The reply to a single read; of a timer or counter it is contact, current value and preset. */
  function RD(m: Memory, f: Device.Family, n: nat, format: Protocol.Format): (r: seq<Value>)
    ensures r != []
  {
    var p := Position(f, n);
    var value := Shown(Raw(m.cells, f, p, format), format);
    if Composite(f) then
      [Shown(Get(m.cells, BitPlace(f, p)), Protocol.Bit), Shown(Get(m.cells, LongPlace(f, p)), format), value]
    else [value]
  }

  function CommentAt(m: Memory, f: Device.Family, n: nat): string {
    var c := Comment(f, n);
    if c in m.comments then m.comments[c] else ""
  }

  /** The reply to a consecutive read of words. */
  function RdsWords(m: Memory, f: Device.Family, n: nat, count: nat): (r: seq<Word>)
    ensures |r| == count && forall k :: 0 <= k < count ==> r[k] == WordAt(m, f, n + k)
  {
    seq<Word>(count, k requires 0 <= k < count => WordAt(m, f, n + k))
  }

  /** The reply to a consecutive read of bits, across banks. */
  function RdsBits(m: Memory, f: Device.Family, n: nat, count: nat): (r: seq<int>)
    ensures |r| == count
    ensures forall k :: 0 <= k < count ==> r[k] == if BitAt(m, f, Position(f, n) + k) then 1 else 0
  {
    seq(count, k requires 0 <= k < count => if BitAt(m, f, Position(f, n) + k) then 1 else 0)
  }

  // ---------------------------------------------------------------- writes

  /** Consecutive points of a family lie this many positions apart in the given format. */
  function Span(f: Device.Family, format: Protocol.Format): nat {
    if Device.DirectBit(f) then (if format.Bit? then 1 else if Device.Is32(format) then 32 else 16)
    else if Device.Is32(format) && !Device.Native32(f) then 2
    else 1
  }

  /** Sets `count` bits from position `p` to the binary digits of `v`, lowest first. */
  function PutBits(cells: Cells, f: Device.Family, p: nat, v: nat, count: nat): Cells
    decreases count
  {
    if count == 0 then cells else PutBits(cells[BitPlace(f, p) := v % 2], f, p + 1, v / 2, count - 1)
  }

  /** Two's complement of the low `modulus` part. */
  function Low(v: int, modulus: nat): nat
    requires modulus > 0
  {
    v % modulus
  }

  /** Stores one value of a format at a position. */
  function Put(cells: Cells, f: Device.Family, p: nat, format: Protocol.Format, v: int): Cells {
    if Device.DirectBit(f) then
      if format.Bit? then cells[BitPlace(f, p) := if v == 0 then 0 else 1]
      else PutBits(cells, f, p, Low(v, if Device.Is32(format) then 0x1_0000_0000 else 0x1_0000), Span(f, format))
    else if Device.Native32(f) then cells[LongPlace(f, p) := Low(v, 0x1_0000_0000)]
    else if Device.Is32(format) then
      cells[WordPlace(f, p) := Low(v, 0x1_0000)][WordPlace(f, p + 1) := Low(v, 0x1_0000_0000) / 0x1_0000]
    else cells[WordPlace(f, p) := Low(v, 0x1_0000)]
  }

  /** `WRS`: the values at consecutive points from position `p` on. */
  function PutMany(cells: Cells, f: Device.Family, p: nat, format: Protocol.Format, values: seq<int>): Cells
    decreases |values|
  {
    if values == [] then cells
    else PutMany(Put(cells, f, p, format, values[0]), f, p + Span(f, format), format, values[1..])
  }

  /** `WSS`: the presets of consecutive timers or counters. */
  function PutPresets(cells: Cells, f: Device.Family, p: nat, values: seq<int>): Cells
    decreases |values|
  {
    if values == [] then cells
    else PutPresets(cells[PresetPlace(f, p) := Low(values[0], 0x1_0000_0000)], f, p + 1, values[1..])
  }

  // ---------------------------------------------------------------- pairs of words

  /** `words[i] | (words[i + 1] << 16)` is the 32-bit value of the pair. */
  lemma OrIsDouble(lo: Word, hi: Word)
    ensures Bits.Or(lo, hi * Bits.Pow2(16)) == Double(lo, hi)
  {
    Bits.Pow16();
    Bits.OrShifted(lo, hi, 16);
  }
}
