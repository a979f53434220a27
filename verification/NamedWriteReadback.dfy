/** Every value an accepted named write wrote reads back, device by device. */
module NamedWriteReadback {
  import opened PlcMemory
  import opened NamedWrite
  import opened NamedWriteEffects
  import Execution = ReadPlanExecution
  import Bits
  import Protocol
  import Device
  import HelperAddress

  /** What a caller reads for a value it wrote. */
  function AsValue(d: Dtype, v: Scalar): Value
    requires Fits(d, v)
  {
    match v
    case Flag(b) => Bool(b)
    case Whole(n) => if d.format.H? then Text(Protocol.Hex4(n)) else Int(n)
    case Packed(lo, hi) => Float(lo, hi)
  }

  /** A lone read of the device at a position. */
  function ReadAt(m: Memory, f: Device.Family, p: nat, d: Dtype): Value {
    Execution.ReadSingle(m, f, NumberAt(f, p), d, 0)
  }

  // ---------------------------------------------------------------- numbers in their width

  /** Two's complement of half the modulus is undone by reading it as signed. */
  lemma LowSigned(v: int, half: nat)
    requires half > 0 && 0 <= v + half && v < half
    ensures Signed(Low(v, 2 * half), half) == v
  {
    if v < 0 { assert v % (2 * half) == v + 2 * half; }
  }

  /** The two halves of a 32-bit value. */
  lemma Halves(v: int)
    ensures Low(v, 0x1_0000) + Low(v, 0x1_0000_0000) / 0x1_0000 * 0x1_0000 == Low(v, 0x1_0000_0000)
    ensures Low(v, 0x1_0000_0000) / 0x1_0000 < 0x1_0000
    ensures Low(v, 0x1_0000_0000) % 0x1_0000 == Low(v, 0x1_0000) < 0x1_0000
  {
    var w, q := v % 0x1_0000_0000, v / 0x1_0000_0000;
    SameRemainder(w, q * 0x1_0000);
    assert v == w + q * 0x1_0000 * 0x1_0000;
  }

  lemma InRange(v: int)
    ensures 0 <= v < 0x1_0000 ==> Low(v, 0x1_0000) == v
    ensures 0 <= v < 0x1_0000_0000 ==> Low(v, 0x1_0000_0000) == v
    ensures -0x8000 <= v < 0x8000 ==> Signed(Low(v, 0x1_0000), 0x8000) == v
    ensures -0x8000_0000 <= v < 0x8000_0000 ==> Signed(Low(v, 0x1_0000_0000), 0x8000_0000) == v
  {
    if -0x8000 <= v < 0x8000 { LowSigned(v, 0x8000); }
    if -0x8000_0000 <= v < 0x8000_0000 { LowSigned(v, 0x8000_0000); }
  }

  /** The stored number holds `v` in the width of the format. */
  predicate Holds(raw: nat, v: int, format: Protocol.Format) {
    if Device.Is32(format) then raw % 0x1_0000_0000 == Low(v, 0x1_0000_0000) else raw % 0x1_0000 == Low(v, 0x1_0000)
  }

  lemma HeldIsShown(raw: nat, v: int, format: Protocol.Format)
    requires Holds(raw, v, format) && Fits(HelperAddress.Word(format), Whole(v)) && !format.Bit?
    ensures Shown(raw, format) == AsValue(HelperAddress.Word(format), Whole(v))
  {
    InRange(v);
    hide Low, Signed;
  }

  lemma LowHolds(v: int, format: Protocol.Format)
    ensures Holds(Low(v, 0x1_0000_0000), v, format)
    ensures !Device.Is32(format) ==> Holds(Low(v, 0x1_0000), v, format)
  {
    Halves(v);
  }

  // ---------------------------------------------------------------- one value

  /** Bits written from a number are that number again. */
  lemma {:induction false} BitsReadBack(cells: Cells, f: Device.Family, p: nat, v: nat, count: nat)
    requires v < Bits.Pow2(count)
    ensures BitsFrom(PutBits(cells, f, p, v, count), f, p, count) == v
    decreases count
  {
    if count > 0 {
      var first := cells[BitPlace(f, p) := v % 2];
      PutBitsOutside(first, f, p + 1, v / 2, count - 1);
      assert Get(PutBits(first, f, p + 1, v / 2, count - 1), BitPlace(f, p)) == Get(first, BitPlace(f, p));
      BitsReadBack(first, f, p + 1, v / 2, count - 1);
    }
  }

  lemma Pow32()
    ensures Bits.Pow2(16) == 0x1_0000 && Bits.Pow2(32) == 0x1_0000_0000
  {
    Bits.Pow16();
    assert Bits.Pow2(20) == 0x10_0000;
    assert Bits.Pow2(24) == 0x100_0000;
    assert Bits.Pow2(28) == 0x1000_0000;
  }

  lemma BitsHold(cells: Cells, f: Device.Family, p: nat, format: Protocol.Format, v: int)
    requires Device.DirectBit(f) && !format.Bit? && !Composite(f)
    ensures Holds(Raw(Put(cells, f, p, format, v), f, p, format), v, format)
  {
    hide Device.DirectBit, Composite, Device.Native32, Low;
    LowBounds(v);
    Pow32();
    BitsReadBack(cells, f, p, Low(v, if Device.Is32(format) then 0x1_0000_0000 else 0x1_0000), Span(f, format));
    LowHolds(v, format);
  }

  lemma LowBounds(v: int)
    ensures Low(v, 0x1_0000) < 0x1_0000 && Low(v, 0x1_0000_0000) < 0x1_0000_0000
  {
  }

  /** The low and the high word of a pair hold the number. */
  lemma PairHolds(cells: Cells, f: Device.Family, p: nat, format: Protocol.Format, v: int)
    requires !Device.DirectBit(f) && !Composite(f) && !Device.Native32(f) && Device.Is32(format)
    ensures Holds(Raw(Put(cells, f, p, format, v), f, p, format), v, format)
  {
    hide Device.DirectBit, Composite, Device.Native32;
    Halves(v);
    LowBounds(v);
    hide Low, PutBits, BitsFrom;
    var after := Put(cells, f, p, format, v);
    assert Get(after, WordPlace(f, p)) == Low(v, 0x1_0000);
    assert Get(after, WordPlace(f, p + 1)) == Low(v, 0x1_0000_0000) / 0x1_0000;
    hide Put, Get;
  }

  lemma WordsHold(cells: Cells, f: Device.Family, p: nat, format: Protocol.Format, v: int)
    requires !Device.DirectBit(f) && !Composite(f)
    ensures Holds(Raw(Put(cells, f, p, format, v), f, p, format), v, format)
  {
    hide Device.DirectBit, Composite, Device.Native32, Low, PutBits, BitsFrom, Holds, Double;
    if !Device.Native32(f) && Device.Is32(format) {
      PairHolds(cells, f, p, format, v);
    } else {
      LowHolds(v, format);
    }
  }

  /** What a write of one number stores holds it. */
  lemma StoredHolds(cells: Cells, f: Device.Family, p: nat, d: Dtype, v: int)
    requires d.Word? && !d.format.Bit?
    ensures Holds(Raw(PutScalar(cells, f, p, d, Whole(v)), f, p, d.format), v, d.format)
  {
    hide Put, Low, Device.DirectBit;
    if Composite(f) {
      LowHolds(v, d.format);
    } else if Device.DirectBit(f) {
      BitsHold(cells, f, p, d.format, v);
    } else {
      WordsHold(cells, f, p, d.format, v);
    }
  }

  /** A lone read of numbers shows what is stored at the position. */
  lemma ReadShows(m: Memory, f: Device.Family, p: nat, d: Dtype)
    requires d.Word?
    ensures ReadAt(m, f, p, d) == Shown(Raw(m.cells, f, p, d.format), d.format)
  {
    hide Raw, Shown;
    NumberIsAt(f, p);
  }

  /** A lone read of a bit or of a float. */
  lemma ReadOther(m: Memory, f: Device.Family, p: nat, d: Dtype)
    requires HelperAddress.Suits(d, f)
    ensures d.OneBit? ==> ReadAt(m, f, p, d) == Bool(Get(m.cells, BitPlace(f, p)) != 0)
    ensures d.Float? ==>
      ReadAt(m, f, p, d)
        == Float(Get(m.cells, WordPlace(f, p)) % 0x1_0000, Get(m.cells, WordPlace(f, p + 1)) % 0x1_0000)
  {
    hide Device.OrdinaryWord, Device.Native32, Device.DirectBit, Composite, Get;
    NumberIsAt(f, p);
    Device.Kinds(f);
    Execution.BitIsNotComposite(f);
    if d.Float? { FloatsAreWords(f); NumberOfWords(f, p); }
  }

  lemma NumberOfWords(f: Device.Family, p: nat)
    ensures !Device.DirectBit(f) ==> NumberAt(f, p) == p
  {
    Device.Kinds(f);
  }

  /** A value just written reads back. */
  lemma ScalarReads(m: Memory, f: Device.Family, p: nat, d: Dtype, v: Scalar)
    requires Fits(d, v) && HelperAddress.Suits(d, f) && d != HelperAddress.Word(Protocol.Bit)
    ensures ReadAt(m.(cells := PutScalar(m.cells, f, p, d, v)), f, p, d) == AsValue(d, v)
  {
    var after := m.(cells := PutScalar(m.cells, f, p, d, v));
    hide ReadAt, Shown, Raw, Holds;
    if d.Word? {
      ReadShows(after, f, p, d);
      StoredHolds(m.cells, f, p, d, v.n);
      HeldIsShown(Raw(after.cells, f, p, d.format), v.n, d.format);
    } else {
      hide Device.OrdinaryWord, Device.Native32, Device.HasComments;
      ReadOther(after, f, p, d);
      Execution.BitIsNotComposite(f);
      if d.Float? { FloatsAreWords(f); }
    }
  }

  // ---------------------------------------------------------------- reads depend on their own places

  /** The places of family `f` from `p` up to `q` hold the same. */
  ghost predicate Agree(cells: Cells, other: Cells, f: Device.Family, p: nat, q: nat) {
    forall place: Place :: place.family == f && p <= place.position < q ==> Get(other, place) == Get(cells, place)
  }

  lemma FewerAgree(cells: Cells, other: Cells, f: Device.Family, p: nat, q: nat)
    requires Agree(cells, other, f, p, q)
    ensures Agree(cells, other, f, p + 1, q)
  {
    hide Get;
  }

  lemma {:induction false} BitsAgree(cells: Cells, other: Cells, f: Device.Family, p: nat, count: nat)
    requires Agree(cells, other, f, p, p + count)
    ensures BitsFrom(other, f, p, count) == BitsFrom(cells, f, p, count)
    decreases count
  {
    hide Get, Agree;
    if count > 0 {
      PlacesAgree(cells, other, f, p, p + count);
      FewerAgree(cells, other, f, p, p + count);
      BitsAgree(cells, other, f, p + 1, count - 1);
    }
  }

  lemma RawAgrees(cells: Cells, other: Cells, f: Device.Family, p: nat, format: Protocol.Format)
    requires Agree(cells, other, f, p, p + Spacing(f, HelperAddress.Word(format)))
    ensures Raw(other, f, p, format) == Raw(cells, f, p, format)
  {
    hide Device.DirectBit, Composite, Device.Native32, Get, BitsFrom, Agree, Double, Span, Spacing;
    Reaches(f, format);
    var q := p + Spacing(f, HelperAddress.Word(format));
    PlacesAgree(cells, other, f, p, q);
    if Device.DirectBit(f) && !format.Bit? && !Composite(f) { BitsAgree(cells, other, f, p, Span(f, format)); }
  }

  /** How many positions a read of numbers covers. */
  lemma Reaches(f: Device.Family, format: Protocol.Format)
    ensures var n := Spacing(f, HelperAddress.Word(format));
            && n >= 1 && (!Composite(f) ==> n == Span(f, format))
            && (!Composite(f) && !Device.DirectBit(f) && !Device.Native32(f) && Device.Is32(format) ==> n == 2)
  {
    hide Device.DirectBit, Composite, Device.Native32;
  }

  lemma PlacesAgree(cells: Cells, other: Cells, f: Device.Family, p: nat, q: nat)
    requires Agree(cells, other, f, p, q) && p < q
    ensures Get(other, BitPlace(f, p)) == Get(cells, BitPlace(f, p))
    ensures Get(other, LongPlace(f, p)) == Get(cells, LongPlace(f, p))
    ensures Get(other, PresetPlace(f, p)) == Get(cells, PresetPlace(f, p))
    ensures Get(other, WordPlace(f, p)) == Get(cells, WordPlace(f, p))
    ensures p + 1 < q ==> Get(other, WordPlace(f, p + 1)) == Get(cells, WordPlace(f, p + 1))
  {
    hide Get;
  }

  lemma ReadsAgree(m: Memory, cells: Cells, f: Device.Family, p: nat, d: Dtype)
    requires HelperAddress.Suits(d, f) && (d.Word? || d.OneBit? || d.Float?)
    requires Agree(m.cells, cells, f, p, p + Spacing(f, d))
    ensures ReadAt(m.(cells := cells), f, p, d) == ReadAt(m, f, p, d)
  {
    var other := m.(cells := cells);
    hide ReadAt, Shown, Raw, Get, Device.DirectBit, Device.Native32, Device.OrdinaryWord, Composite;
    if d.Word? {
      RawAgrees(m.cells, cells, f, p, d.format);
      ReadShows(m, f, p, d);
      ReadShows(other, f, p, d);
    } else {
      ReadOther(m, f, p, d);
      ReadOther(other, f, p, d);
      Execution.BitIsNotComposite(f);
      if d.Float? { FloatsAreWords(f); }
    }
  }

  // ---------------------------------------------------------------- a ranged entry

  /** Values at later positions leave earlier places alone. */
  lemma {:induction false} ScalarsLeave(cells: Cells, f: Device.Family, p: nat, d: Dtype, values: seq<Scalar>,
      place: Place)
    requires place.position < p && forall k :: 0 <= k < |values| ==> Fits(d, values[k])
    ensures Get(PutScalars(cells, f, p, d, values), place) == Get(cells, place)
    decreases |values|
  {
    hide PutScalar, Spacing, Get;
    if values != [] {
      ScalarOutside(cells, f, p, d, values[0]);
      ScalarsLeave(PutScalar(cells, f, p, d, values[0]), f, p + Spacing(f, d), d, values[1..], place);
    }
  }

  lemma FirstReads(m: Memory, f: Device.Family, p: nat, d: Dtype, values: seq<Scalar>)
    requires values != [] && forall i :: 0 <= i < |values| ==> Fits(d, values[i])
    requires HelperAddress.Suits(d, f) && d != HelperAddress.Word(Protocol.Bit)
    ensures ReadAt(m.(cells := PutScalars(m.cells, f, p, d, values)), f, p, d) == AsValue(d, values[0])
  {
    hide PutScalar, Spacing, ReadAt, Get, AsValue, HelperAddress.Suits;
    var first, step, rest := m.(cells := PutScalar(m.cells, f, p, d, values[0])), Spacing(f, d), values[1..];
    ScalarReads(m, f, p, d, values[0]);
    var last := PutScalars(first.cells, f, p + step, d, rest);
    forall place: Place | place.position < p + step ensures Get(last, place) == Get(first.cells, place) {
      ScalarsLeave(first.cells, f, p + step, d, rest, place);
    }
    ReadsAgree(first, last, f, p, d);
  }

  lemma {:induction false} ScalarsRead(m: Memory, f: Device.Family, p: nat, d: Dtype, values: seq<Scalar>, k: nat)
    requires k < |values| && forall i :: 0 <= i < |values| ==> Fits(d, values[i])
    requires HelperAddress.Suits(d, f) && d != HelperAddress.Word(Protocol.Bit)
    ensures ReadAt(m.(cells := PutScalars(m.cells, f, p, d, values)), f, Past(p, k, Spacing(f, d)), d)
        == AsValue(d, values[k])
    decreases k
  {
    hide PutScalar, Spacing, ReadAt, Get, AsValue, HelperAddress.Suits, Past;
    var step := Spacing(f, d);
    var first := m.(cells := PutScalar(m.cells, f, p, d, values[0]));
    var rest := values[1..];
    if k == 0 {
      FirstReads(m, f, p, d, values);
      NoSteps(p, step);
    } else {
      ScalarsRead(first, f, p + step, d, rest, k - 1);
      Steps(p, k, step);
    }
  }

  lemma NoSteps(p: nat, step: nat)
    ensures Past(p, 0, step) == p
  {
  }

  lemma Steps(p: nat, k: nat, step: nat)
    requires k > 0
    ensures Past(p + step, k - 1, step) == Past(p, k, step)
  {
    assert (k - 1) * step + step == k * step;
  }

  // ---------------------------------------------------------------- a batch

  /** Batched entries lie exactly one step apart, and each reaches to the next. */
  lemma ReachIsStep(e: Entry)
    requires ValidEntry(e) && BatchSpec(e).kind != SingleWrite
    ensures Reach(e) == BatchSpec(e).step && BatchNumber(e, BatchSpec(e).kind) == Start(e)
  {
    assert Fits(e.dtype, e.values[0]);
    Device.Kinds(e.base.family);
    hide Device.OrdinaryWord, Device.Native32, Device.DirectBit, Device.HasComments, Device.Logical;
  }

  lemma {:induction false} LaterEntriesAreFurther(cells: Cells, entries: seq<Entry>, i: nat, n: nat, place: Place)
    requires ValidEntries(entries) && Contiguous(entries) && SameFamily(entries) && i < n <= |entries|
    requires forall j :: 0 <= j < |entries| ==> entries[j].count == 1
    requires BatchSpec(entries[0]).kind != SingleWrite
    requires place.position < Start(entries[i]) + Reach(entries[i])
    ensures Get(OneByOne(cells, entries[..n]), place) == Get(OneByOne(cells, entries[..i + 1]), place)
    decreases n
  {
    hide ValidEntry, BatchSpec, BatchNumber, PutEntry, Get, Reach, Start;
    if n > i + 1 {
      LaterEntriesAreFurther(cells, entries, i, n - 1, place);
      var e, step := entries[n - 1], BatchSpec(entries[0]).step;
      assert entries[..n][..n - 1] == entries[..n - 1] && entries[..n][n - 1] == e;
      assert Continues(entries, n - 1) && Continues(entries, i);
      ReachIsStep(e);
      ReachIsStep(entries[i]);
      assert (n - 1) * step >= (i + 1) * step == i * step + step by { Multiples(i + 1, n - 1, step); }
      EntryLeaves(OneByOne(cells, entries[..n - 1]), e, place);
    }
  }

  lemma {:induction false} Multiples(a: nat, b: nat, step: nat)
    requires a <= b
    ensures a * step <= b * step
  {
    if a < b { Multiples(a, b - 1, step); }
  }

  lemma OneMore(cells: Cells, entries: seq<Entry>, i: nat)
    requires i < |entries|
    ensures OneByOne(cells, entries[..i + 1]) == PutEntry(OneByOne(cells, entries[..i]), entries[i])
  {
    assert entries[..i + 1][..i] == entries[..i];
  }

  /** The first `i + 1` updates of a batch, then the rest: the device of the `i`-th still reads as it was written. */
  lemma BatchReads(m: Memory, entries: seq<Entry>, i: nat)
    requires ValidEntries(entries) && Contiguous(entries) && SameFamily(entries) && i < |entries|
    requires forall j :: 0 <= j < |entries| ==> entries[j].count == 1
    requires BatchSpec(entries[0]).kind != SingleWrite
    ensures var e := entries[i];
            ReadAt(m.(cells := OneByOne(m.cells, entries)), e.base.family, Start(e), e.dtype)
              == AsValue(e.dtype, e.values[0])
  {
    hide OneByOne, PutEntry, BatchSpec, BatchNumber, Start, Spacing, Get, ReadAt, Continues, SameFamily;
    var e := entries[i];
    var before := m.(cells := OneByOne(m.cells, entries[..i]));
    var there := m.(cells := OneByOne(m.cells, entries[..i + 1]));
    OneMore(m.cells, entries, i);
    EntryReads(before, e, 0);
    assert entries[..|entries|] == entries;
    forall place: Place | place.position < Start(e) + Reach(e)
      ensures Get(OneByOne(m.cells, entries), place) == Get(there.cells, place)
    {
      LaterEntriesAreFurther(m.cells, entries, i, |entries|, place);
    }
    AtStart(e);
    ReadsAgree(there, OneByOne(m.cells, entries), e.base.family, Start(e), e.dtype);
  }

  lemma AtStart(e: Entry)
    ensures Past(Start(e), 0, Spacing(e.base.family, e.dtype)) == Start(e)
  {
  }

  /** A value of an entry written by itself reads back. */
  lemma EntryReads(m: Memory, e: Entry, k: nat)
    requires ValidEntry(e) && k < e.count
    ensures ReadAt(m.(cells := PutEntry(m.cells, e)), e.base.family,
        Past(Start(e), k, Spacing(e.base.family, e.dtype)), e.dtype)
            == AsValue(e.dtype, e.values[k])
  {
    hide PutScalars, ReadAt, Spacing;
    ScalarsRead(m, e.base.family, Start(e), e.dtype, e.values, k);
  }

  /** What a compilable set of several updates looks like. */
  lemma BatchShape(entries: seq<Entry>)
    requires Compilable(entries) && |entries| > 1
    ensures forall j :: 0 <= j < |entries| ==> entries[j].count == 1
    ensures BatchSpec(entries[0]).kind != SingleWrite && Contiguous(entries)
  {
    hide BatchSpec, Contiguous;
  }

  /**
   After an accepted named write of one family, ranged or batched, of any data type, a lone read of each device it names
   gives the value that was written to it.
   */
  lemma WrittenReadsBack(m: Memory, entries: seq<Entry>, op: Operation, i: nat, k: nat)
    requires ValidEntries(entries) && Compilable(entries) && SameFamily(entries) && op == OneRequest(entries)
    requires i < |entries| && k < entries[i].count
    ensures var e := entries[i];
            ReadAt(m.(cells := Execute(m.cells, op)), e.base.family,
                Past(Start(e), k, Spacing(e.base.family, e.dtype)), e.dtype)
            == AsValue(e.dtype, e.values[k])
  {
    hide Execute, OneRequest, OneByOne, PutEntry, BatchSpec, Contiguous, SameFamily, Start, Spacing, ReadAt, Past;
    hide Compilable, ValidEntry, AsValue;
    if |entries| > 1 { BatchShape(entries); }
    OneRequestIsOneByOne(m.cells, entries, op);
    var e := entries[i];
    if |entries| == 1 {
      assert entries == [e];
      OneEntry(m.cells, e, SingleWrite);
      EntryReads(m, e, k);
    } else {
      BatchReads(m, entries, i);
      AtStart(e);
    }
  }
}
