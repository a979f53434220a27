/**
 Families that share memory. A PLC may serve one memory under two family names; the client does not know. For any such
 sharing, an accepted update set does what its updates do one by one exactly when all of them name one memory.
 */
module NamedWriteAliases {
  import opened PlcMemory
  import opened NamedWrite
  import NamedWriteEffects
  import Protocol
  import Device
  import HelperAddress

  /** Which family's memory each family names. */
  type Sharing = Device.Family -> Device.Family

  /** Points of both families have the same width. */
  predicate SameClass(f: Device.Family, g: Device.Family) {
    && (Device.DirectBit(f) <==> Device.DirectBit(g)) && (Device.Native32(f) <==> Device.Native32(g))
    && (Device.OrdinaryWord(f) <==> Device.OrdinaryWord(g)) && (Composite(f) <==> Composite(g))
    && (f == Device.AT <==> g == Device.AT)
  }

  /** Families only share memory of the same kind. */
  ghost predicate Respects(shares: Sharing) { forall f :: SameClass(f, shares(f)) }

  /** The device that holds the memory: the same position of the family that names it. */
  function Holder(shares: Sharing, a: Device.Address): Device.Address {
    var g := shares(a.family);
    Device.Address(g, NumberAt(g, Position(a.family, a.number)), a.suffix)
  }

  function HeldEntry(shares: Sharing, e: Entry): Entry { e.(base := Holder(shares, e.base)) }

  function HeldEntries(shares: Sharing, entries: seq<Entry>): (held: seq<Entry>)
    ensures |held| == |entries| && forall i :: 0 <= i < |entries| ==> held[i] == HeldEntry(shares, entries[i])
  {
    seq(|entries|, i requires 0 <= i < |entries| => HeldEntry(shares, entries[i]))
  }

  function HeldOperation(shares: Sharing, op: Operation): Operation { op.(device := Holder(shares, op.device)) }

  /** All updates name one memory. */
  predicate OneMemory(shares: Sharing, entries: seq<Entry>) {
    && entries != []
    && forall i :: 0 <= i < |entries| ==> shares(entries[i].base.family) == shares(entries[0].base.family)
  }

  lemma HolderPosition(shares: Sharing, a: Device.Address)
    ensures Position(Holder(shares, a).family, Holder(shares, a).number) == Position(a.family, a.number)
    ensures Device.Valid(Holder(shares, a))
  {
    hide Position, NumberAt;
    var p := Position(a.family, a.number);
    NumberIsAt(shares(a.family), p);
    NumberIsValid(shares(a.family), p);
  }

  lemma NumberIsValid(f: Device.Family, p: nat)
    ensures Device.ValidNumber(f, NumberAt(f, p))
  {
    hide Device.Logical, Device.FromLogical;
    Device.LogicalIsBijection(0, p);
  }

  lemma HeldSpec(shares: Sharing, e: Entry)
    requires Respects(shares)
    ensures BatchSpec(HeldEntry(shares, e)) == BatchSpec(e)
  {
    assert SameClass(e.base.family, shares(e.base.family));
    hide Device.DirectBit, Device.Native32, Device.OrdinaryWord, Composite, NumberAt, Position;
  }

  lemma HeldValid(shares: Sharing, e: Entry)
    requires Respects(shares) && ValidEntry(e)
    ensures ValidEntry(HeldEntry(shares, e))
  {
    assert SameClass(e.base.family, shares(e.base.family));
    HolderPosition(shares, e.base);
    assert Fits(e.dtype, e.values[0]);
    hide Device.DirectBit, Device.Native32, Device.OrdinaryWord, Composite, NumberAt, Position, Device.HasComments;
    hide Device.Valid;
  }

  /** Batched numbers are positions, which sharing keeps. */
  lemma NumberIsPosition(e: Entry)
    requires ValidEntry(e) && BatchSpec(e).kind != SingleWrite
    ensures BatchNumber(e, BatchSpec(e).kind) == Position(e.base.family, e.base.number)
  {
    assert Fits(e.dtype, e.values[0]);
    Device.Kinds(e.base.family);
    hide Device.DirectBit, Device.Native32, Device.OrdinaryWord, Device.HasComments, Device.Logical;
  }

  lemma HeldNumber(shares: Sharing, e: Entry)
    requires Respects(shares) && ValidEntry(e) && BatchSpec(e).kind != SingleWrite
    ensures BatchNumber(HeldEntry(shares, e), BatchSpec(e).kind) == BatchNumber(e, BatchSpec(e).kind)
  {
    hide BatchNumber, BatchSpec, ValidEntry, Position;
    HeldSpec(shares, e);
    HeldValid(shares, e);
    NumberIsPosition(e);
    NumberIsPosition(HeldEntry(shares, e));
    HolderPosition(shares, e.base);
  }

  lemma HeldContinues(shares: Sharing, entries: seq<Entry>, i: nat)
    requires Respects(shares) && ValidEntries(entries) && i < |entries| && BatchSpec(entries[0]).kind != SingleWrite
    ensures Continues(HeldEntries(shares, entries), i) <==> Continues(entries, i)
  {
    hide BatchNumber, BatchSpec, ValidEntry, HeldEntry;
    HeldSpec(shares, entries[0]);
    HeldSpec(shares, entries[i]);
    HeldNumber(shares, entries[0]);
    if BatchSpec(entries[i]) == BatchSpec(entries[0]) { HeldNumber(shares, entries[i]); }
  }

  lemma HeldEntriesFit(shares: Sharing, entries: seq<Entry>)
    requires Respects(shares) && ValidEntries(entries) && Compilable(entries)
    ensures ValidEntries(HeldEntries(shares, entries)) && Compilable(HeldEntries(shares, entries))
  {
    hide BatchSpec, ValidEntry, Continues, Holder;
    var held := HeldEntries(shares, entries);
    forall i | 0 <= i < |entries| ensures ValidEntry(held[i]) { HeldValid(shares, entries[i]); }
    HeldSpec(shares, entries[0]);
    if BatchSpec(entries[0]).kind != SingleWrite {
      forall i | 0 <= i < |entries| ensures Continues(held, i) <==> Continues(entries, i) {
        HeldContinues(shares, entries, i);
      }
    }
  }

  lemma {:induction false} HeldEncodes(shares: Sharing, entries: seq<Entry>, kind: WriteKind, n: nat)
    requires n <= |entries|
    ensures EncodeAll(HeldEntries(shares, entries)[..n], kind) == EncodeAll(entries[..n], kind)
  {
    if n > 0 {
      var held := HeldEntries(shares, entries);
      HeldEncodes(shares, entries, kind, n - 1);
      assert held[..n][..n - 1] == held[..n - 1] && entries[..n][..n - 1] == entries[..n - 1];
      assert Encode(held[n - 1], kind) == Encode(entries[n - 1], kind);
    }
  }

  /** The request for the held entries is the request itself, on the memory that its device names. */
  lemma HeldRequest(shares: Sharing, entries: seq<Entry>)
    requires Respects(shares) && ValidEntries(entries) && ValidEntries(HeldEntries(shares, entries))
    ensures OneRequest(HeldEntries(shares, entries)) == HeldOperation(shares, OneRequest(entries))
  {
    hide BatchSpec, ValidEntry, EncodeAll, Holder;
    var held, first := HeldEntries(shares, entries), entries[0];
    HeldSpec(shares, first);
    assert SameClass(first.base.family, shares(first.base.family));
    assert shares(first.base.family) == held[0].base.family by { HolderFamily(shares, first.base); }
    HeldEncodes(shares, entries, BatchSpec(first).kind, |entries|);
    assert held[..|entries|] == held && entries[..|entries|] == entries;
    hide Composite, Device.DirectBit, Device.Native32, Device.OrdinaryWord;
  }

  lemma HolderFamily(shares: Sharing, a: Device.Address)
    ensures Holder(shares, a).family == shares(a.family)
  {
  }

  /** However families share memory, the request is the updates one by one if and only if they name one memory. */
  lemma OneRequestIffOneMemory(shares: Sharing, entries: seq<Entry>, op: Operation, held: seq<Entry>)
    requires Respects(shares) && ValidEntries(entries) && Compilable(entries) && op == OneRequest(entries)
    requires held == HeldEntries(shares, entries)
    ensures (forall cells: Cells :: Execute(cells, HeldOperation(shares, op)) == OneByOne(cells, held))
            <==> OneMemory(shares, entries)
  {
    hide Compilable, Execute, OneByOne, OneRequest, ValidEntry, Holder;
    HeldEntriesFit(shares, entries);
    HeldRequest(shares, entries);
    NamedWriteEffects.OneRequestIffOneFamily(held, HeldOperation(shares, op));
    forall i | 0 <= i < |entries| ensures held[i].base.family == shares(entries[i].base.family) {
      HolderFamily(shares, entries[i].base);
    }
  }

  // ---------------------------------------------------------------- D and DM

  /** The sharing that makes `D` another name of the memory of `DM`. */
  function DataMemory(f: Device.Family): Device.Family { if f == Device.Family.D then Device.DM else f }

  lemma DataMemoryRespects()
    ensures Respects(DataMemory)
  {
  }

  predicate NamesData(e: Entry) { e.base.family == Device.Family.D || e.base.family == Device.DM }

  /** Where `D` and `DM` are one memory, an accepted update set that mixes the two is written as one by one. */
  lemma MixedDataIsOneByOne(entries: seq<Entry>, cells: Cells)
    requires ValidEntries(entries) && Compilable(entries)
    requires forall i :: 0 <= i < |entries| ==> NamesData(entries[i])
    ensures OneMemory(DataMemory, entries)
    ensures Execute(cells, HeldOperation(DataMemory, OneRequest(entries)))
        == OneByOne(cells, HeldEntries(DataMemory, entries))
  {
    hide Compilable, Execute, OneByOne, OneRequest, ValidEntry, HeldOperation, HeldEntries;
    DataMemoryRespects();
    OneRequestIffOneMemory(DataMemory, entries, OneRequest(entries), HeldEntries(DataMemory, entries));
  }

  const MixedData: seq<Entry> := [
    Entry(Device.Address(Device.Family.D, 0, Protocol.Bit), HelperAddress.Word(Protocol.U), 1, [Whole(1)]),
    Entry(Device.Address(Device.DM, 1, Protocol.Bit), HelperAddress.Word(Protocol.U), 1, [Whole(2)])]

  /**
   `D0:U` and `DM1:U` are accepted as one request. Whether that request is right depends on the PLC alone: it is where
   `D` and `DM` are one memory, and some memory shows the difference where they are two.
   */
  lemma MixedDataDependsOnThePlc()
    ensures ValidEntries(MixedData) && Compilable(MixedData)
    ensures forall cells: Cells ::
      Execute(cells, HeldOperation(DataMemory, OneRequest(MixedData)))
      == OneByOne(cells, HeldEntries(DataMemory, MixedData))
    ensures exists cells: Cells :: Execute(cells, OneRequest(MixedData)) != OneByOne(cells, MixedData)
  {
    MixedDataIsValid();
    MixedDataContinues();
    hide ValidEntry, BatchSpec, OneRequest, Continues, Execute, OneByOne, HeldOperation, HeldEntries;
    assert NamesData(MixedData[0]) && NamesData(MixedData[1]);
    forall cells: Cells
      ensures Execute(cells, HeldOperation(DataMemory, OneRequest(MixedData)))
          == OneByOne(cells, HeldEntries(DataMemory, MixedData))
    {
      MixedDataIsOneByOne(MixedData, cells);
    }
    assert MixedData[1].base.family != MixedData[0].base.family;
    NamedWriteEffects.OneRequestIffOneFamily(MixedData, OneRequest(MixedData));
  }

  lemma MixedDataIsValid()
    ensures ValidEntry(MixedData[0]) && ValidEntry(MixedData[1])
  {
  }

  lemma MixedDataContinues()
    ensures Continues(MixedData, 0) && Continues(MixedData, 1)
    ensures BatchSpec(MixedData[0]) == Spec(ConsecutiveWrite, 1, Protocol.U)
  {
  }
}
