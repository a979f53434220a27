/**
 The named-write compiler: an ordered set of typed updates becomes one write request, or is rejected. The request does
 to memory what the updates do one by one exactly when they all name one device family.
 */
module NamedWrite {
  import opened Wrappers
  import opened PlcMemory
  import Protocol
  import Device
  import HelperAddress

  type Dtype = HelperAddress.Dtype

  /** A normalised value: a flag, a number, or a float as the pair of words it packs to. */
  datatype Scalar = Flag(b: bool) | Whole(n: int) | Packed(lo: Word, hi: Word)

  datatype Entry = Entry(base: Device.Address, dtype: Dtype, count: nat, values: seq<Scalar>)

  datatype WriteKind = SingleWrite | BitWrite | ConsecutiveWrite | PackedWrite | PresetWrite

  /** `format` is `Bit` where the source passes none. */
  datatype Operation = Operation(kind: WriteKind, device: Device.Address, values: seq<int>, format: Protocol.Format)

  datatype Spec = Spec(kind: WriteKind, step: nat, format: Protocol.Format)

  datatype WriteError = TooManyRequests | Incompatible | Rejected

  predicate Fits(d: Dtype, v: Scalar) {
    match d
    case OneBit => v.Flag?
    case Float => v.Packed?
    case Word(f) => v.Whole? && Protocol.Lowest(f) <= v.n <= Protocol.Highest(f)
    case _ => false
  }

  /** What the snapshot of the caller's mapping guarantees of each entry. */
  predicate ValidEntry(e: Entry) {
    && Device.Valid(e.base) && e.base.family != Device.AT
    && HelperAddress.Suits(e.dtype, e.base.family)
    && e.dtype != HelperAddress.Word(Protocol.Bit)
    && e.count >= 1 && |e.values| == e.count
    && forall k :: 0 <= k < |e.values| ==> Fits(e.dtype, e.values[k])
  }

  predicate ValidEntries(entries: seq<Entry>) {
    entries != [] && forall i :: 0 <= i < |entries| ==> ValidEntry(entries[i])
  }

  function FormatOf(d: Dtype): Protocol.Format { if d.Word? then d.format else Protocol.Bit }

  predicate Is32(d: Dtype) { d.Word? && Device.Is32(d.format) }

  /** `_named_write_batch_spec` */
  function BatchSpec(e: Entry): Spec {
    var f := e.base.family;
    if Composite(f) then Spec(PresetWrite, 1, FormatOf(e.dtype))
    else if Device.DirectBit(f) && !e.dtype.OneBit? then Spec(SingleWrite, 1, FormatOf(e.dtype))
    else if e.dtype.OneBit? then Spec(BitWrite, 1, Protocol.Bit)
    else if (e.dtype.Word? && !Is32(e.dtype)) || (Device.Native32(f) && Is32(e.dtype)) then
      Spec(ConsecutiveWrite, 1, FormatOf(e.dtype))
    else Spec(PackedWrite, 2, Protocol.U)
  }

  /** `_named_write_batch_number` */
  function BatchNumber(e: Entry, kind: WriteKind): nat {
    if kind == BitWrite && Device.BitBank(e.base.family) then Device.Logical(e.base.number) else e.base.number
  }

  function Plain(v: Scalar): int {
    match v case Flag(b) => if b then 1 else 0 case Whole(n) => n case Packed(lo, _) => lo
  }

  /** `_encode_named_write_values` */
  function Encode(e: Entry, kind: WriteKind): seq<int> {
    if e.values == [] then []
    else if kind != PackedWrite then [Plain(e.values[0])]
    else if e.values[0].Packed? then [e.values[0].lo, e.values[0].hi]
    else
      var bits := Low(Plain(e.values[0]), 0x1_0000_0000);
      [bits % 0x1_0000, bits / 0x1_0000]
  }

  function Plains(values: seq<Scalar>): seq<int> {
    if values == [] then [] else [Plain(values[0])] + Plains(values[1..])
  }

  function PackedWords(values: seq<Scalar>): seq<int> {
    if values == [] then []
    else (match values[0] case Packed(lo, hi) => [lo as int, hi as int] case v => [Plain(v)]) + PackedWords(values[1..])
  }

  /** `_compile_named_write_range` */
  function RangeOperation(e: Entry): Operation {
    if Composite(e.base.family) then Operation(PresetWrite, e.base, Plains(e.values), FormatOf(e.dtype))
    else if e.dtype.Float? then Operation(ConsecutiveWrite, e.base, PackedWords(e.values), Protocol.U)
    else Operation(ConsecutiveWrite, e.base, Plains(e.values), FormatOf(e.dtype))
  }

  // ---------------------------------------------------------------- what can be one request

  /** The entries continue `first` point by point, all written the same way. */
  predicate Contiguous(entries: seq<Entry>) {
    entries != [] && forall i :: 0 <= i < |entries| ==> Continues(entries, i)
  }

  predicate Continues(entries: seq<Entry>, i: nat)
    requires i < |entries|
  {
    var spec := BatchSpec(entries[0]);
    && BatchSpec(entries[i]) == spec
    && BatchNumber(entries[i], spec.kind) == BatchNumber(entries[0], spec.kind) + i * spec.step
  }

  /** The update sets that fit one request. */
  predicate Compilable(entries: seq<Entry>) {
    && entries != []
    && if |entries| == 1 && entries[0].count > 1 then true
       else
         && (forall i :: 0 <= i < |entries| ==> entries[i].count == 1)
         && if BatchSpec(entries[0]).kind == SingleWrite then |entries| == 1 else Contiguous(entries)
  }

  function EncodeAll(entries: seq<Entry>, kind: WriteKind): seq<int> {
    if entries == [] then [] else EncodeAll(entries[..|entries| - 1], kind) + Encode(entries[|entries| - 1], kind)
  }

  /** The one request for compilable entries. */
  function OneRequest(entries: seq<Entry>): Operation
    requires ValidEntries(entries)
  {
    var first := entries[0];
    if |entries| == 1 && first.count > 1 then RangeOperation(first)
    else
      var spec := BatchSpec(first);
      Operation(spec.kind, first.base, EncodeAll(entries, spec.kind), spec.format)
  }

  /** `_compile_named_write_operation` */
  method CompileWrite(entries: seq<Entry>) returns (r: Result<Operation, WriteError>)
    requires ValidEntries(entries)
    ensures r.Ok? <==> Compilable(entries)
    ensures r.Ok? ==> r.value == OneRequest(entries)
  {
    hide Encode, BatchSpec, BatchNumber, ValidEntry, Continues, RangeOperation;
    if |entries| == 1 && entries[0].count > 1 {
      return Ok(RangeOperation(entries[0]));
    }
    if exists i :: 0 <= i < |entries| && entries[i].count != 1 {
      return Err(TooManyRequests);
    }
    var first := entries[0];
    var spec := BatchSpec(first);
    if spec.kind == SingleWrite {
      if |entries| != 1 { return Err(TooManyRequests); }
      SingleEncodes(first);
      assert entries == [first];
      return Ok(Operation(SingleWrite, first.base, [Plain(first.values[0])], spec.format));
    }
    var encoded: seq<int> := [];
    var expected := BatchNumber(first, spec.kind);
    var i := 0;
    ExpectedFirst(entries);
    while i < |entries|
      invariant i <= |entries|
      invariant expected == Expected(entries, i)
      invariant forall j :: 0 <= j < i ==> Continues(entries, j)
      invariant encoded == EncodeAll(entries[..i], spec.kind)
    {
      var entry := entries[i];
      var own := BatchSpec(entry);
      var number := BatchNumber(entry, own.kind);
      ContinuesAt(entries, i);
      if own != spec || number != expected {
        return Err(Incompatible);
      }
      assert entries[..i + 1][..i] == entries[..i];
      encoded := encoded + Encode(entry, spec.kind);
      expected := number + spec.step;
      i := i + 1;
    }
    assert entries[..|entries|] == entries;
    return Ok(Operation(spec.kind, first.base, encoded, spec.format));
  }

  /** The number the `i`-th entry must have. */
  function Expected(entries: seq<Entry>, i: nat): nat
    requires entries != []
  {
    BatchNumber(entries[0], BatchSpec(entries[0]).kind) + i * BatchSpec(entries[0]).step
  }

  lemma ExpectedFirst(entries: seq<Entry>)
    requires entries != []
    ensures Expected(entries, 0) == BatchNumber(entries[0], BatchSpec(entries[0]).kind)
  {
  }

  lemma ContinuesAt(entries: seq<Entry>, i: nat)
    requires i < |entries|
    ensures var spec, own := BatchSpec(entries[0]), BatchSpec(entries[i]);
            Continues(entries, i) <==> own == spec && BatchNumber(entries[i], own.kind) == Expected(entries, i)
    ensures Expected(entries, i + 1) == Expected(entries, i) + BatchSpec(entries[0]).step
  {
    hide BatchSpec, BatchNumber;
  }

  lemma SingleEncodes(e: Entry)
    requires ValidEntry(e)
    ensures EncodeAll([e], SingleWrite) == [Plain(e.values[0])]
    ensures e.values != []
  {
    assert [e][..0] == [];
  }

  // ---------------------------------------------------------------- meaning

  /** What the PLC does on the request. */
  function Execute(cells: Cells, op: Operation): Cells {
    var f := op.device.family;
    var p := Position(f, op.device.number);
    if op.kind == PresetWrite then PutPresets(cells, f, p, op.values) else PutMany(cells, f, p, op.format, op.values)
  }

  /** Positions from one value of a ranged entry to the next. */
  function Spacing(f: Device.Family, d: Dtype): nat {
    if Composite(f) then 1 else if d.Float? then 2 else Span(f, FormatOf(d))
  }

  /** One value of an entry, written by itself at position `p`. */
  function PutScalar(cells: Cells, f: Device.Family, p: nat, d: Dtype, v: Scalar): Cells {
    if Composite(f) then cells[PresetPlace(f, p) := Low(Plain(v), 0x1_0000_0000)]
    else if v.Packed? then cells[WordPlace(f, p) := v.lo][WordPlace(f, p + 1) := v.hi]
    else Put(cells, f, p, FormatOf(d), Plain(v))
  }

  function PutScalars(cells: Cells, f: Device.Family, p: nat, d: Dtype, values: seq<Scalar>): Cells
    decreases |values|
  {
    if values == [] then cells
    else PutScalars(PutScalar(cells, f, p, d, values[0]), f, p + Spacing(f, d), d, values[1..])
  }

  function PutEntry(cells: Cells, e: Entry): Cells {
    PutScalars(cells, e.base.family, Position(e.base.family, e.base.number), e.dtype, e.values)
  }

  /** The updates written one by one, in order. */
  function OneByOne(cells: Cells, entries: seq<Entry>): Cells {
    if entries == [] then cells else PutEntry(OneByOne(cells, entries[..|entries| - 1]), entries[|entries| - 1])
  }

  // ---------------------------------------------------------------- a range is its values one by one

  lemma {:induction false} PresetsAreScalars(cells: Cells, f: Device.Family, p: nat, d: Dtype, values: seq<Scalar>)
    requires Composite(f)
    ensures PutPresets(cells, f, p, Plains(values)) == PutScalars(cells, f, p, d, values)
    decreases |values|
  {
    if values != [] {
      PresetsAreScalars(PutScalar(cells, f, p, d, values[0]), f, p + 1, d, values[1..]);
    }
  }

  lemma {:induction false} ManyAreScalars(cells: Cells, f: Device.Family, p: nat, d: Dtype, values: seq<Scalar>)
    requires !Composite(f) && !d.Float? && forall k :: 0 <= k < |values| ==> Fits(d, values[k])
    ensures PutMany(cells, f, p, FormatOf(d), Plains(values)) == PutScalars(cells, f, p, d, values)
    decreases |values|
  {
    hide Put, Span, Composite;
    if values != [] {
      ManyAreScalars(PutScalar(cells, f, p, d, values[0]), f, p + Spacing(f, d), d, values[1..]);
    }
  }

  lemma {:induction false} WordsAreFloats(cells: Cells, f: Device.Family, p: nat, values: seq<Scalar>)
    requires Device.Float32Eligible(f) && forall k :: 0 <= k < |values| ==> values[k].Packed?
    ensures PutMany(cells, f, p, Protocol.U, PackedWords(values))
        == PutScalars(cells, f, p, HelperAddress.Float, values)
    decreases |values|
  {
    Device.Kinds(f);
    if values != [] {
      var next := PutScalar(cells, f, p, HelperAddress.Float, values[0]);
      WordsAreFloats(next, f, p + 2, values[1..]);
      PairOfWords(cells, f, p, values[0].lo, values[0].hi, PackedWords(values[1..]));
    }
  }

  lemma PutWord(cells: Cells, f: Device.Family, p: nat, w: Word)
    requires Device.OrdinaryWord(f) && !Device.Native32(f)
    ensures Put(cells, f, p, Protocol.U, w) == cells[WordPlace(f, p) := w] && Span(f, Protocol.U) == 1
  {
    Device.Kinds(f);
    hide PutBits, Device.OrdinaryWord, Device.Native32, Device.DirectBit;
  }

  lemma ManyUnfold(cells: Cells, f: Device.Family, p: nat, format: Protocol.Format, v: int, rest: seq<int>)
    ensures PutMany(cells, f, p, format, [v] + rest)
            == PutMany(Put(cells, f, p, format, v), f, p + Span(f, format), format, rest)
  {
    hide Put, Span;
    assert ([v] + rest)[1..] == rest;
  }

  /** Two words written one after the other. */
  lemma PairOfWords(cells: Cells, f: Device.Family, p: nat, lo: Word, hi: Word, rest: seq<int>)
    requires Device.OrdinaryWord(f) && !Device.Native32(f)
    ensures PutMany(cells, f, p, Protocol.U, [lo as int, hi as int] + rest)
            == PutMany(cells[WordPlace(f, p) := lo][WordPlace(f, p + 1) := hi], f, p + 2, Protocol.U, rest)
  {
    hide Put, Span, PutMany;
    PutWord(cells, f, p, lo);
    PutWord(cells[WordPlace(f, p) := lo], f, p + 1, hi);
    assert [lo as int, hi as int] + rest == [lo as int] + ([hi as int] + rest);
    ManyUnfold(cells, f, p, Protocol.U, lo, [hi as int] + rest);
    ManyUnfold(cells[WordPlace(f, p) := lo], f, p + 1, Protocol.U, hi, rest);
  }

  lemma RangeIsOneByOne(cells: Cells, e: Entry)
    requires ValidEntry(e)
    ensures Execute(cells, RangeOperation(e)) == PutEntry(cells, e)
  {
    var f, p := e.base.family, Position(e.base.family, e.base.number);
    if Composite(f) {
      PresetsAreScalars(cells, f, p, e.dtype, e.values);
    } else if e.dtype.Float? {
      WordsAreFloats(cells, f, p, e.values);
    } else {
      ManyAreScalars(cells, f, p, e.dtype, e.values);
    }
  }

  // ---------------------------------------------------------------- a batch is its entries one by one

  /** The position `count` units past `p`. */
  function Past(p: nat, count: nat, unit: nat): nat { p + count * unit }

  lemma {:induction false} PutManyConcat(cells: Cells, f: Device.Family, p: nat, format: Protocol.Format,
      a: seq<int>, b: seq<int>)
    ensures PutMany(cells, f, p, format, a + b)
            == PutMany(PutMany(cells, f, p, format, a), f, Past(p, |a|, Span(f, format)), format, b)
    decreases |a|
  {
    hide Put, Span;
    if a == [] {
      assert a + b == b;
    } else {
      var s := Span(f, format);
      assert (a + b)[1..] == a[1..] + b;
      PutManyConcat(Put(cells, f, p, format, a[0]), f, p + s, format, a[1..], b);
      assert (|a| - 1) * s + s == |a| * s;
    }
  }

  lemma {:induction false} PutPresetsConcat(cells: Cells, f: Device.Family, p: nat, a: seq<int>, b: seq<int>)
    ensures PutPresets(cells, f, p, a + b) == PutPresets(PutPresets(cells, f, p, a), f, p + |a|, b)
    decreases |a|
  {
    if a == [] {
      assert a + b == b;
    } else {
      assert (a + b)[1..] == a[1..] + b;
      PutPresetsConcat(cells[PresetPlace(f, p) := Low(a[0], 0x1_0000_0000)], f, p + 1, a[1..], b);
    }
  }

  predicate SameFamily(entries: seq<Entry>) {
    entries != [] && forall i :: 0 <= i < |entries| ==> entries[i].base.family == entries[0].base.family
  }

  lemma Nothing(cells: Cells, p: nat, f: Device.Family, format: Protocol.Format)
    ensures PutMany(cells, f, p, format, []) == cells && PutPresets(cells, f, p, []) == cells
  {
  }

  lemma OneOf(e: Entry)
    requires ValidEntry(e) && e.count == 1
    ensures e.values == [e.values[0]]
  {
  }

  lemma EncodedScalar(cells: Cells, e: Entry, p: nat)
    requires ValidEntry(e) && e.count == 1
    ensures var spec, f := BatchSpec(e), e.base.family;
            PutScalar(cells, f, p, e.dtype, e.values[0]) ==
            if spec.kind == PresetWrite then PutPresets(cells, f, p, Encode(e, spec.kind))
            else PutMany(cells, f, p, spec.format, Encode(e, spec.kind))
  {
    var spec, f := BatchSpec(e), e.base.family;
    if spec.kind == PackedWrite {
      PackedScalar(cells, e, p);
    } else {
      PlainScalar(cells, e, p);
    }
  }

  lemma PackedScalar(cells: Cells, e: Entry, p: nat)
    requires ValidEntry(e) && e.count == 1 && BatchSpec(e).kind == PackedWrite
    ensures PutScalar(cells, e.base.family, p, e.dtype, e.values[0])
            == PutMany(cells, e.base.family, p, Protocol.U, Encode(e, PackedWrite))
  {
    var f, words := e.base.family, Encode(e, PackedWrite);
    assert Fits(e.dtype, e.values[0]);
    Device.Kinds(f);
    hide PutMany, Device.OrdinaryWord, Device.Native32, Device.DirectBit, Position;
    PairOfWords(cells, f, p, words[0], words[1], []);
    assert words == [words[0], words[1]] + [];
    Nothing(cells[WordPlace(f, p) := words[0]][WordPlace(f, p + 1) := words[1]], p + 2, f, Protocol.U);
    LowHalf(Plain(e.values[0]));
  }

  lemma LowHalf(v: int)
    ensures Low(v, 0x1_0000_0000) % 0x1_0000 == Low(v, 0x1_0000)
  {
    SameRemainder(v % 0x1_0000_0000, v / 0x1_0000_0000 * 0x1_0000);
    assert v == v % 0x1_0000_0000 + v / 0x1_0000_0000 * 0x1_0000 * 0x1_0000;
  }

  lemma SameRemainder(a: int, k: int)
    ensures (a + k * 0x1_0000) % 0x1_0000 == a % 0x1_0000
  {
  }

  lemma PlainScalar(cells: Cells, e: Entry, p: nat)
    requires ValidEntry(e) && e.count == 1 && BatchSpec(e).kind != PackedWrite
    ensures var spec, f := BatchSpec(e), e.base.family;
            PutScalar(cells, f, p, e.dtype, e.values[0]) ==
            if spec.kind == PresetWrite then PutPresets(cells, f, p, Encode(e, spec.kind))
            else PutMany(cells, f, p, spec.format, Encode(e, spec.kind))
  {
    var spec, f := BatchSpec(e), e.base.family;
    assert Fits(e.dtype, e.values[0]);
    hide PutMany, PutPresets, Put, Device.OrdinaryWord, Device.Native32, Device.DirectBit, Position;
    OneValue(cells, f, p, spec.format, Plain(e.values[0]));
  }

  /** One encoded entry, written as the request writes it, is the entry written by itself. */
  lemma EncodedIsEntry(cells: Cells, e: Entry)
    requires ValidEntry(e) && e.count == 1
    ensures var spec, f, p := BatchSpec(e), e.base.family, Position(e.base.family, e.base.number);
            PutEntry(cells, e) ==
            if spec.kind == PresetWrite then PutPresets(cells, f, p, Encode(e, spec.kind))
            else PutMany(cells, f, p, spec.format, Encode(e, spec.kind))
  {
    hide Put, PutMany, PutPresets, PutScalars, PutScalar, Position, BatchSpec, Encode, ValidEntry;
    var f, p := e.base.family, Position(e.base.family, e.base.number);
    assert e.values == [e.values[0]] by { OneOf(e); }
    OneScalar(cells, f, p, e.dtype, e.values[0]);
    EncodedScalar(cells, e, p);
  }

  lemma OneScalar(cells: Cells, f: Device.Family, p: nat, d: Dtype, v: Scalar)
    ensures PutScalars(cells, f, p, d, [v]) == PutScalar(cells, f, p, d, v)
  {
    hide PutScalar, Spacing;
    assert [v][1..] == [];
  }

  lemma OneValue(cells: Cells, f: Device.Family, p: nat, format: Protocol.Format, v: int)
    ensures PutMany(cells, f, p, format, [v]) == Put(cells, f, p, format, v)
    ensures PutPresets(cells, f, p, [v]) == cells[PresetPlace(f, p) := Low(v, 0x1_0000_0000)]
  {
    hide Put, Span;
    assert [v][1..] == [];
  }

  /** The step between batched entries is the span of the values each one encodes to. */
  lemma StepIsSpan(e: Entry, f: Device.Family)
    requires ValidEntry(e) && e.base.family == f && BatchSpec(e).kind != SingleWrite
    ensures var spec := BatchSpec(e);
            && |Encode(e, spec.kind)| * (if spec.kind == PresetWrite then 1 else Span(f, spec.format)) == spec.step
            && BatchNumber(e, spec.kind) == Position(f, e.base.number)
  {
    assert Fits(e.dtype, e.values[0]);
    Device.Kinds(f);
    hide Device.OrdinaryWord, Device.Native32, Device.DirectBit, Device.HasComments, Device.Logical;
  }

  /** Where the `k`-th entry of a batch stands, and how far what it encodes to reaches. */
  lemma EntryOfBatch(entries: seq<Entry>, k: nat)
    requires ValidEntries(entries) && SameFamily(entries) && Contiguous(entries) && k < |entries|
    requires BatchSpec(entries[0]).kind != SingleWrite
    ensures var spec, f, e := BatchSpec(entries[0]), entries[0].base.family, entries[k];
            && ValidEntry(e) && e.base.family == f && BatchSpec(e) == spec
            && Position(f, e.base.number) == Position(f, entries[0].base.number) + k * spec.step
            && |Encode(e, spec.kind)| * UnitOf(f, spec) == spec.step
  {
    hide ValidEntry, BatchSpec, BatchNumber, Encode, Span, Position;
    assert Continues(entries, k);
    StepIsSpan(entries[0], entries[0].base.family);
    StepIsSpan(entries[k], entries[0].base.family);
  }

  /** Positions one written value takes. */
  function UnitOf(f: Device.Family, spec: Spec): nat { if spec.kind == PresetWrite then 1 else Span(f, spec.format) }

  function PutWith(cells: Cells, f: Device.Family, p: nat, spec: Spec, values: seq<int>): Cells {
    if spec.kind == PresetWrite then PutPresets(cells, f, p, values) else PutMany(cells, f, p, spec.format, values)
  }

  lemma PutWithConcat(cells: Cells, f: Device.Family, p: nat, spec: Spec, a: seq<int>, b: seq<int>)
    ensures PutWith(cells, f, p, spec, a + b)
            == PutWith(PutWith(cells, f, p, spec, a), f, Past(p, |a|, UnitOf(f, spec)), spec, b)
  {
    hide PutWith;
    if spec.kind == PresetWrite {
      PresetsWithConcat(cells, f, p, spec, a, b);
    } else {
      ManyWithConcat(cells, f, p, spec, a, b);
    }
  }

  lemma PresetsWithConcat(cells: Cells, f: Device.Family, p: nat, spec: Spec, a: seq<int>, b: seq<int>)
    requires spec.kind == PresetWrite
    ensures PutWith(cells, f, p, spec, a + b) == PutWith(PutWith(cells, f, p, spec, a), f, p + |a|, spec, b)
  {
    hide PutMany, PutPresets;
    PutPresetsConcat(cells, f, p, a, b);
  }

  lemma ManyWithConcat(cells: Cells, f: Device.Family, p: nat, spec: Spec, a: seq<int>, b: seq<int>)
    requires spec.kind != PresetWrite
    ensures PutWith(cells, f, p, spec, a + b)
            == PutWith(PutWith(cells, f, p, spec, a), f, Past(p, |a|, Span(f, spec.format)), spec, b)
  {
    hide PutMany, PutPresets, Span;
    PutManyConcat(cells, f, p, spec.format, a, b);
  }

  lemma {:induction false} BatchIsOneByOne(cells: Cells, entries: seq<Entry>, n: nat)
    requires ValidEntries(entries) && SameFamily(entries) && Contiguous(entries) && n <= |entries|
    requires forall i :: 0 <= i < |entries| ==> entries[i].count == 1
    requires BatchSpec(entries[0]).kind != SingleWrite
    ensures var spec, f := BatchSpec(entries[0]), entries[0].base.family;
            var values := EncodeAll(entries[..n], spec.kind);
            && |values| * UnitOf(f, spec) == n * spec.step
            && OneByOne(cells, entries[..n]) == PutWith(cells, f, Position(f, entries[0].base.number), spec, values)
  {
    hide ValidEntry, SameFamily, Contiguous, BatchSpec, Encode, UnitOf, Position, PutEntry, PutWith;
    var first := entries[0];
    var spec, f, p := BatchSpec(first), first.base.family, Position(first.base.family, first.base.number);
    if n == 0 {
      NothingWith(cells, f, p, spec);
    } else {
      var k, e := n - 1, entries[n - 1];
      BatchIsOneByOne(cells, entries, k);
      assert entries[..n][..k] == entries[..k] && entries[..n][k] == e;
      EntryOfBatch(entries, k);
      EncodedWith(OneByOne(cells, entries[..k]), e);
      var before, last := EncodeAll(entries[..k], spec.kind), Encode(e, spec.kind);
      PutWithConcat(cells, f, p, spec, before, last);
      Distributes(|before|, |last|, UnitOf(f, spec), k, spec.step);
    }
  }

  lemma Distributes(a: nat, b: nat, unit: nat, k: nat, step: nat)
    requires a * unit == k * step && b * unit == step
    ensures (a + b) * unit == (k + 1) * step
  {
  }

  lemma NothingWith(cells: Cells, f: Device.Family, p: nat, spec: Spec)
    ensures PutWith(cells, f, p, spec, []) == cells && 0 * UnitOf(f, spec) == 0
  {
  }

  lemma EncodedWith(cells: Cells, e: Entry)
    requires ValidEntry(e) && e.count == 1
    ensures PutEntry(cells, e) ==
            PutWith(cells, e.base.family, Position(e.base.family, e.base.number), BatchSpec(e),
                Encode(e, BatchSpec(e).kind))
  {
    hide PutEntry, Position, BatchSpec, Encode, PutMany, PutPresets;
    EncodedIsEntry(cells, e);
  }

  /** For one family, the one request does what the updates do one by one. */
  lemma OneRequestIsOneByOne(cells: Cells, entries: seq<Entry>, op: Operation)
    requires ValidEntries(entries) && Compilable(entries) && SameFamily(entries) && op == OneRequest(entries)
    ensures Execute(cells, op) == OneByOne(cells, entries)
  {
    hide ValidEntry, Encode, Span, Position, Put, PutEntry, PutMany, PutPresets, BatchSpec, BatchNumber, EncodeAll;
    hide OneByOne;
    var first := entries[0];
    if |entries| == 1 {
      assert entries == [first];
      OneEntry(cells, first, BatchSpec(first).kind);
      if first.count > 1 {
        RangeIsOneByOne(cells, first);
      } else {
        EncodedIsEntry(cells, first);
      }
    } else {
      BatchIsOneByOne(cells, entries, |entries|);
      assert entries[..|entries|] == entries;
      assert Execute(cells, OneRequest(entries))
        == PutWith(cells, first.base.family, Position(first.base.family, first.base.number), BatchSpec(first),
                   EncodeAll(entries, BatchSpec(first).kind));
    }
  }

  lemma OneEntry(cells: Cells, e: Entry, kind: WriteKind)
    ensures OneByOne(cells, [e]) == PutEntry(cells, e) && EncodeAll([e], kind) == Encode(e, kind)
  {
    hide PutEntry, Encode;
    assert [e][..0] == [];
  }
}
