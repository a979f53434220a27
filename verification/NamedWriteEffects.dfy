/** When the one request is the updates one by one. */
module NamedWriteEffects {
  import opened Wrappers
  import opened PlcMemory
  import opened NamedWrite
  import Protocol
  import Device
  import HelperAddress

  // ---------------------------------------------------------------- frames

  /** Places outside family `f`, or outside the positions from `p` up to `q`, hold what they held. */
  ghost predicate Outside(cells: Cells, after: Cells, f: Device.Family, p: nat, q: nat) {
    forall place: Place :: place.family != f || !(p <= place.position < q) ==> Get(after, place) == Get(cells, place)
  }

  lemma {:induction false} PutBitsOutside(cells: Cells, f: Device.Family, p: nat, v: nat, count: nat)
    ensures Outside(cells, PutBits(cells, f, p, v, count), f, p, p + count)
    decreases count
  {
    if count > 0 { PutBitsOutside(cells[BitPlace(f, p) := v % 2], f, p + 1, v / 2, count - 1); }
  }

  lemma PutOutside(cells: Cells, f: Device.Family, p: nat, format: Protocol.Format, v: int)
    ensures Outside(cells, Put(cells, f, p, format, v), f, p, p + Span(f, format))
  {
    hide Device.DirectBit, Device.Native32, Low, PutBits;
    if Device.DirectBit(f) && !format.Bit? {
      PutBitsOutside(cells, f, p, Low(v, if Device.Is32(format) then 0x1_0000_0000 else 0x1_0000), Span(f, format));
    }
  }

  lemma {:induction false} PutManyOutside(cells: Cells, f: Device.Family, p: nat, format: Protocol.Format,
      values: seq<int>)
    ensures Outside(cells, PutMany(cells, f, p, format, values), f, p, Past(p, |values|, Span(f, format)))
    decreases |values|
  {
    hide Put, Span, Get;
    if values != [] {
      var s := Span(f, format);
      PutOutside(cells, f, p, format, values[0]);
      PutManyOutside(Put(cells, f, p, format, values[0]), f, p + s, format, values[1..]);
      assert (|values| - 1) * s + s == |values| * s;
    }
  }

  lemma {:induction false} PutPresetsOutside(cells: Cells, f: Device.Family, p: nat, values: seq<int>)
    ensures Outside(cells, PutPresets(cells, f, p, values), f, p, p + |values|)
    decreases |values|
  {
    if values != [] {
      PutPresetsOutside(cells[PresetPlace(f, p) := Low(values[0], 0x1_0000_0000)], f, p + 1, values[1..]);
    }
  }

  /** The request leaves every other family alone. */
  lemma ExecuteOutside(cells: Cells, op: Operation, place: Place)
    requires place.family != op.device.family
    ensures Get(Execute(cells, op), place) == Get(cells, place)
  {
    hide Get, Position, Span;
    var f, p := op.device.family, Position(op.device.family, op.device.number);
    PutManyOutside(cells, f, p, op.format, op.values);
    PutPresetsOutside(cells, f, p, op.values);
  }

  /** How far the entry reaches. */
  function Reach(e: Entry): nat { Spacing(e.base.family, e.dtype) }

  function Start(e: Entry): nat { Position(e.base.family, e.base.number) }

  /** An entry of one value changes no place but its own. */
  lemma EntryOutside(cells: Cells, e: Entry)
    requires ValidEntry(e) && e.count == 1
    ensures Outside(cells, PutEntry(cells, e), e.base.family, Start(e), Start(e) + Reach(e))
  {
    hide Put, Span, Position, Get;
    var f, p, v := e.base.family, Start(e), e.values[0];
    assert e.values == [v];
    OneScalar(cells, f, p, e.dtype, v);
    ScalarOutside(cells, f, p, e.dtype, v);
  }

  lemma ScalarOutside(cells: Cells, f: Device.Family, p: nat, d: Dtype, v: Scalar)
    requires Fits(d, v)
    ensures Outside(cells, PutScalar(cells, f, p, d, v), f, p, p + Spacing(f, d))
  {
    hide Put, Span;
    PutOutside(cells, f, p, FormatOf(d), Plain(v));
  }

  // ---------------------------------------------------------------- exactly for one family

  /** A place a value at `p` is written to, whatever was there. */
  function TargetAt(f: Device.Family, p: nat): Place {
    if Composite(f) then PresetPlace(f, p)
    else if Device.DirectBit(f) then BitPlace(f, p)
    else if Device.Native32(f) then LongPlace(f, p)
    else WordPlace(f, p)
  }

  function Target(e: Entry): Place { TargetAt(e.base.family, Start(e)) }

  lemma ScalarTarget(cells: Cells, other: Cells, f: Device.Family, p: nat, d: Dtype, v: Scalar)
    requires Fits(d, v) && HelperAddress.Suits(d, f) && (Device.DirectBit(f) ==> d.OneBit?)
    ensures Get(PutScalar(cells, f, p, d, v), TargetAt(f, p)) == Get(PutScalar(other, f, p, d, v), TargetAt(f, p))
  {
    hide Low, PutBits, Span, Put, Device.OrdinaryWord, Device.HasComments, Device.Native32, Device.DirectBit;
    hide Composite, Plain;
    if v.Packed? {
      FloatsAreWords(f);
    } else {
      hide HelperAddress.Suits;
      PutTarget(cells, other, f, p, FormatOf(d), Plain(v));
    }
  }

  lemma PutTarget(cells: Cells, other: Cells, f: Device.Family, p: nat, format: Protocol.Format, v: int)
    requires Device.DirectBit(f) ==> format.Bit?
    ensures !Composite(f) ==>
      Get(Put(cells, f, p, format, v), TargetAt(f, p)) == Get(Put(other, f, p, format, v), TargetAt(f, p))
  {
    hide Low, PutBits, Span, Device.Native32, Device.DirectBit, Composite;
  }

  lemma NotComposite(f: Device.Family)
    ensures Device.OrdinaryWord(f) ==> !Composite(f)
  {
  }

  lemma FloatsAreWords(f: Device.Family)
    requires Device.Float32Eligible(f)
    ensures !Composite(f) && !Device.DirectBit(f) && !Device.Native32(f)
  {
    Device.Kinds(f);
    NotComposite(f);
  }

  lemma BatchedBits(e: Entry)
    requires BatchSpec(e).kind != SingleWrite
    ensures Device.DirectBit(e.base.family) ==> e.dtype.OneBit?
  {
  }

  lemma TargetIsWritten(cells: Cells, other: Cells, e: Entry)
    requires ValidEntry(e) && e.count == 1 && BatchSpec(e).kind != SingleWrite
    ensures Get(PutEntry(cells, e), Target(e)) == Get(PutEntry(other, e), Target(e))
  {
    hide Position, PutScalar, TargetAt, BatchSpec;
    var f, p, v := e.base.family, Start(e), e.values[0];
    assert e.values == [v];
    OneScalar(cells, f, p, e.dtype, v);
    OneScalar(other, f, p, e.dtype, v);
    BatchedBits(e);
    assert Fits(e.dtype, v);
    ScalarTarget(cells, other, f, p, e.dtype, v);
  }

  lemma EntryLeaves(cells: Cells, e: Entry, place: Place)
    requires ValidEntry(e) && e.count == 1
    requires place.family != e.base.family || place.position < Start(e)
    ensures Get(PutEntry(cells, e), place) == Get(cells, place)
  {
    hide PutEntry, ValidEntry, Get, Start, Reach;
    EntryOutside(cells, e);
  }

  /** Entries of other families from `i` on leave a place alone. */
  lemma {:induction false} LaterEntriesKeep(cells: Cells, entries: seq<Entry>, i: nat, place: Place)
    requires i <= |entries| && forall j :: i <= j < |entries| ==>
      ValidEntry(entries[j]) && entries[j].count == 1 && entries[j].base.family != place.family
    ensures Get(OneByOne(cells, entries), place) == Get(OneByOne(cells, entries[..i]), place)
    decreases |entries|
  {
    hide PutEntry, ValidEntry, Get;
    var n := |entries|;
    if i < n {
      LaterEntriesKeep(cells, entries[..n - 1], i, place);
      assert entries[..n - 1][..i] == entries[..i];
      EntryLeaves(OneByOne(cells, entries[..n - 1]), entries[n - 1], place);
    } else {
      assert entries[..i] == entries;
    }
  }

  lemma {:induction false} LastStranger(entries: seq<Entry>, f: Device.Family, n: nat) returns (i: nat)
    requires n <= |entries| && exists j :: 0 <= j < n && entries[j].base.family != f
    ensures i < n && entries[i].base.family != f && forall j :: i < j < n ==> entries[j].base.family == f
  {
    if entries[n - 1].base.family != f { i := n - 1; } else { i := LastStranger(entries, f, n - 1); }
  }

  /** With two families, some memory shows the difference at some place. */
  lemma MixedFamiliesDiffer(entries: seq<Entry>, op: Operation) returns (cells: Cells, place: Place)
    requires ValidEntries(entries) && Compilable(entries) && !SameFamily(entries) && op == OneRequest(entries)
    ensures Get(Execute(cells, op), place) == 0 <==> Get(OneByOne(cells, entries), place) != 0
  {
    hide ValidEntry, BatchSpec, BatchNumber, Get, Execute, PutEntry, Target;
    var f := entries[0].base.family;
    var i := LastStranger(entries, f, |entries|);
    var e := entries[i];
    assert Continues(entries, i);
    assert BatchSpec(e).kind != SingleWrite;
    place := Target(e);
    TargetFamily(e);
    var written := Get(PutEntry(map[], e), place);
    cells := map[place := if written == 0 then 1 else 0];
    GetOne(place, if written == 0 then 1 else 0);
    assert op.device.family == f;
    ExecuteOutside(cells, op, place);
    LaterEntriesKeep(cells, entries, i + 1, place);
    assert entries[..i + 1][..i] == entries[..i];
    TargetIsWritten(OneByOne(cells, entries[..i]), map[], e);
  }

  lemma TargetFamily(e: Entry)
    ensures Target(e).family == e.base.family
  {
  }

  lemma GetOne(place: Place, v: nat)
    ensures Get(map[place := v], place) == v
  {
  }

  /** For accepted updates, the one request does what the updates do one by one if and only if they name one family. */
  lemma OneRequestIffOneFamily(entries: seq<Entry>, op: Operation)
    requires ValidEntries(entries) && Compilable(entries) && op == OneRequest(entries)
    ensures (forall cells: Cells :: Execute(cells, op) == OneByOne(cells, entries)) <==> SameFamily(entries)
  {
    hide ValidEntries, Compilable, Execute, OneByOne, OneRequest;
    if SameFamily(entries) {
      forall cells: Cells ensures Execute(cells, op) == OneByOne(cells, entries) {
        OneRequestIsOneByOne(cells, entries, op);
      }
    } else {
      var cells, place := MixedFamiliesDiffer(entries, op);
      assert Execute(cells, op) != OneByOne(cells, entries);
    }
  }

  lemma WitnessRequest()
    ensures OneRequest(Witness)
        == Operation(ConsecutiveWrite, Device.Address(Device.DM, 0, Protocol.Bit), [1, 2], Protocol.U)
  {
    assert Witness[..1] == [Witness[0]];
    assert Witness[..1][..0] == [];
    assert EncodeAll(Witness[..1], ConsecutiveWrite) == [1];
  }

  const Witness: seq<Entry> := [
    Entry(Device.Address(Device.DM, 0, Protocol.Bit), HelperAddress.Word(Protocol.U), 1, [Whole(1)]),
    Entry(Device.Address(Device.EM, 1, Protocol.Bit), HelperAddress.Word(Protocol.U), 1, [Whole(2)])]

  /**
   `DM0:U` and `EM1:U` are accepted and sent as one request, although they name two families. Families hold separate
   memory here; `NamedWriteAliases` says the same for families that share memory, such as `D` and `DM`.
   */
  lemma TwoFamiliesAreAccepted()
    ensures ValidEntries(Witness) && Compilable(Witness) && !SameFamily(Witness) && Preflight(OneRequest(Witness))
  {
    WitnessIsValid();
    WitnessContinues();
    WitnessRequest();
    hide ValidEntry, BatchSpec, OneRequest, Continues;
    assert Witness[1].base.family != Witness[0].base.family;
  }

  lemma WitnessIsValid()
    ensures ValidEntry(Witness[0]) && ValidEntry(Witness[1])
  {
  }

  lemma WitnessContinues()
    ensures Continues(Witness, 0) && Continues(Witness, 1)
    ensures BatchSpec(Witness[0]) == Spec(ConsecutiveWrite, 1, Protocol.U)
  {
  }

  // ---------------------------------------------------------------- write_named

  /** `_preflight_named_write_operation`: the command can be built. */
  predicate Preflight(op: Operation) {
    && op.device.suffix == Protocol.Bit && op.values != []
    && (op.kind != SingleWrite ==>
          Device.CountAllowed(op.device.family, Device.Effective(op.device.family, op.format), |op.values|))
    && forall k :: 0 <= k < |op.values| ==> Protocol.Lowest(op.format) <= op.values[k] <= Protocol.Highest(op.format)
  }

  /**
   `write_named`: nothing is written on an error; otherwise exactly one request is, and for one device family it leaves
   memory as writing the updates one by one would.
   */
  method WriteNamed(entries: seq<Entry>, m: Memory) returns (r: Result<Operation, WriteError>, after: Memory)
    requires ValidEntries(entries)
    ensures r.Ok? <==> Compilable(entries) && Preflight(OneRequest(entries))
    ensures r.Err? ==> after == m
    ensures r.Ok? ==> r.value == OneRequest(entries) && after == m.(cells := Execute(m.cells, r.value))
    ensures r.Ok? && SameFamily(entries) ==> after.cells == OneByOne(m.cells, entries)
  {
    hide Execute, OneRequest, OneByOne, Compilable, SameFamily, ValidEntries, Preflight;
    after := m;
    r := CompileWrite(entries);
    match r {
      case Err(_) =>
      case Ok(op) =>
        if !Preflight(op) { return Err(Rejected), m; }
        if SameFamily(entries) { OneRequestIsOneByOne(m.cells, entries, op); }
        after := m.(cells := Execute(m.cells, op));
    }
  }
}
