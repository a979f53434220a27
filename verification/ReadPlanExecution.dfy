/** Executing a plan: merged reads, values taken out by offset, results in the caller's order. */
module ReadPlanExecution {
  import opened Wrappers
  import opened ReadPlan
  import opened ReadPlanSegments
  import opened PlcMemory
  import Bits
  import Protocol
  import Device
  import HelperAddress

  datatype ReadError = NotPlanned(error: PlanError) | Rejected | Unresolved(address: string)

  // ---------------------------------------------------------------- what one address reads by itself

  function FirstInt(reply: seq<Value>): int
    requires reply != []
  {
    if reply[0].Int? then reply[0].n else 0
  }

  /** One bit of the first value of a reply. */
  function BitOf(reply: seq<Value>, bit: nat): Value
    requires reply != []
  {
    Bool(FirstInt(reply) >= 0 && Bits.Bit(FirstInt(reply), bit))
  }

  /** `read_typed`, and the bit read of a family that is not an ordinary word family. */
  function ReadSingle(m: Memory, f: Device.Family, n: nat, d: Dtype, bit: nat): Value {
    match d
    case Word(format) =>
      var reply := RD(m, f, n, format);
      if f == Device.T || f == Device.C then reply[|reply| - 1] else reply[0]
    case Float => Float(WordAt(m, f, n), WordAt(m, f, n + 1))
    case OneBit => Bool(FirstInt(RD(m, f, n, Protocol.Bit)) != 0)
    case BitInWord => BitOf(RD(m, f, n, Protocol.U), bit)
    case Comment => Text(CommentAt(m, f, n))
  }

  /** The value of the request read alone, with the command of its own data type. */
  function ReadLone(m: Memory, r: Request): Value {
    var f, n := r.base.family, r.base.number;
    match r.kind
    case Merged(d) => ReadSingle(m, f, n, d, r.bit)
    case DirectBits => ReadSingle(m, f, n, HelperAddress.OneBit, r.bit)
    case Single(d) => ReadSingle(m, f, n, d, r.bit)
    case Remark => ReadSingle(m, f, n, HelperAddress.Comment, r.bit)
  }

  // ---------------------------------------------------------------- values out of a merged read

  /** `_resolve_planned_value`; none is the raised error for a kind that has no planned value. */
  function Resolve(words: seq<Word>, offset: nat, d: Dtype, bit: nat): Option<Value>
    requires offset + Width(Merged(d)) <= |words|
  {
    match d
    case Float => Some(Value.Float(words[offset], words[offset + 1]))
    case BitInWord => Some(Bool(Bits.Bit(words[offset], bit)))
    case Word(format) =>
      (match format
       case U => Some(Int(words[offset]))
       case S => Some(Int(if words[offset] < 0x8000 then words[offset] else words[offset] as int - 0x1_0000))
       case D => Some(Int(Bits.Or(words[offset], words[offset + 1] * Bits.Pow2(16))))
       case L =>
         var value := Bits.Or(words[offset], words[offset + 1] * Bits.Pow2(16));
         Some(Int(if value < 0x8000_0000 then value else value as int - 0x1_0000_0000))
       case _ => None)
    case _ => None
  }

  lemma WordsStart(s: Segment)
    requires Sound(s) && s.mode == WordsMode
    ensures s.first == s.start.number
  {
    assert Covers(s, s.requests[0]);
  }

  lemma OrdinaryIsNotBit(f: Device.Family)
    ensures Device.OrdinaryWord(f) ==> !Device.DirectBit(f) && f != Device.T && f != Device.C
  {
  }

  lemma ResolvedWord(m: Memory, s: Segment, r: Request)
    requires Sound(s) && s.mode == WordsMode && Proper(r) && r.kind.Merged? && Covers(s, r)
    ensures var words := RdsWords(m, s.start.family, s.start.number, s.count);
            var offset := Number(r) - s.first;
            && offset >= 0 && offset + Width(r.kind) <= |words|
            && Resolve(words, offset, r.kind.dtype, r.bit) == Some(ReadLone(m, r))
  {
    hide Sound, Resolve, ReadSingle, Device.OrdinaryWord, Device.Native32, Device.DirectBit;
    WordsStart(s);
    var words := RdsWords(m, s.start.family, s.start.number, s.count);
    var offset := Number(r) - s.first;
    assert s.start.number + offset == r.base.number;
    ResolvedSingle(m, words, offset, r);
  }

  /** Words read at the place of the request resolve to what a lone read gives. */
  lemma ResolvedSingle(m: Memory, words: seq<Word>, offset: nat, r: Request)
    requires Proper(r) && r.kind.Merged? && offset + Width(r.kind) <= |words|
    requires words[offset] == WordAt(m, r.base.family, r.base.number)
    requires Width(r.kind) == 2 ==> words[offset + 1] == WordAt(m, r.base.family, r.base.number + 1)
    ensures Resolve(words, offset, r.kind.dtype, r.bit)
        == Some(ReadSingle(m, r.base.family, r.base.number, r.kind.dtype, r.bit))
  {
    hide RD, WordAt, Bits.Or, Bits.Pow2, Bits.Bit, Device.OrdinaryWord, Device.Native32, Device.DirectBit;
    var f, n := r.base.family, r.base.number;
    OrdinaryIsNotBit(f);
    WordRead(m, f, n);
    if !Device.Native32(f) { PairRead(m, f, n); }
    if Width(r.kind) == 2 { OrIsDouble(words[offset], words[offset + 1]); }
  }

  /** A lone read of an ordinary word. */
  lemma WordRead(m: Memory, f: Device.Family, n: nat)
    requires Device.OrdinaryWord(f)
    ensures RD(m, f, n, Protocol.U) == [Int(WordAt(m, f, n))]
    ensures RD(m, f, n, Protocol.S) == [Int(Signed(WordAt(m, f, n), 0x8000))]
  {
    OrdinaryIsNotBit(f);
    Device.Kinds(f);
    hide Device.OrdinaryWord, Device.Native32, Device.DirectBit, Get, Signed;
  }

  /** A lone read of two ordinary words. */
  lemma PairRead(m: Memory, f: Device.Family, n: nat)
    requires Device.OrdinaryWord(f) && !Device.Native32(f)
    ensures RD(m, f, n, Protocol.D) == [Int(Double(WordAt(m, f, n), WordAt(m, f, n + 1)))]
    ensures RD(m, f, n, Protocol.L) == [Int(Signed(Double(WordAt(m, f, n), WordAt(m, f, n + 1)), 0x8000_0000))]
  {
    OrdinaryIsNotBit(f);
    Device.Kinds(f);
    hide Device.OrdinaryWord, Device.Native32, Device.DirectBit, Get, Signed;
  }

  lemma ResolvedBit(m: Memory, s: Segment, r: Request)
    requires Sound(s) && s.mode == BitsMode && Proper(r) && r.kind.DirectBits? && Covers(s, r)
    ensures var tokens := RdsBits(m, s.start.family, s.start.number, s.count);
            var offset := Number(r) - s.first;
            && 0 <= offset < |tokens|
            && Bool(tokens[offset] != 0) == ReadLone(m, r)
  {
    assert Covers(s, s.requests[0]);
    BitIsNotComposite(r.base.family);
    hide Sound, Device.Logical, Device.DirectBit, Composite;
  }

  lemma BitIsNotComposite(f: Device.Family)
    ensures Device.DirectBit(f) ==> !Composite(f)
  {
  }

  // ---------------------------------------------------------------- executing

  /** The requests of the segment are those of the plan at their indices. */
  predicate Indexed(requests: seq<Request>, rs: seq<Request>) {
    forall k :: 0 <= k < |rs| ==> rs[k].index < |requests| && requests[rs[k].index] == rs[k] && Proper(rs[k])
  }

  /** Every value resolved so far is the right one. */
  predicate Right(m: Memory, requests: seq<Request>, resolved: seq<Option<Value>>) {
    |resolved| == |requests| && forall i :: 0 <= i < |requests| && resolved[i].Some? ==>
      resolved[i].value == ReadLone(m, requests[i])
  }

  predicate Filled(resolved: seq<Option<Value>>, rs: seq<Request>) {
    forall k :: 0 <= k < |rs| ==> rs[k].index < |resolved| && resolved[rs[k].index].Some?
  }

  predicate Keeps(before: seq<Option<Value>>, after: seq<Option<Value>>) {
    |after| == |before| && forall i :: 0 <= i < |before| && before[i].Some? ==> after[i].Some?
  }

  /** Reads one segment and scatters its values. */
  method ReadSegment(m: Memory, s: Segment, ghost requests: seq<Request>, resolved: seq<Option<Value>>)
      returns (after: seq<Option<Value>>)
    requires Sound(s) && Indexed(requests, s.requests) && Right(m, requests, resolved)
    ensures Right(m, requests, after) && Filled(after, s.requests) && Keeps(resolved, after)
  {
    hide Sound, Proper, ReadLone, ReadAlone;
    Lone(s);
    if |s.requests| == 1 || !Mergeable(s.mode) {
      var r := s.requests[0];
      AloneIsLone(m, r);
      after := resolved[r.index := Some(ReadAlone(m, r))];
    } else if s.mode == BitsMode {
      after := ScatterBits(m, s, requests, resolved);
    } else {
      after := ScatterWords(m, s, requests, resolved);
    }
  }

  method ScatterBits(m: Memory, s: Segment, ghost requests: seq<Request>, resolved: seq<Option<Value>>)
      returns (after: seq<Option<Value>>)
    requires Sound(s) && s.mode == BitsMode && Indexed(requests, s.requests) && Right(m, requests, resolved)
    ensures Right(m, requests, after) && Filled(after, s.requests) && Keeps(resolved, after)
  {
    hide Sound, Proper, ReadLone, Covers, Number, BitAt, Position;
    after := resolved;
    var tokens := RdsBits(m, s.start.family, s.start.number, s.count);
    for k := 0 to |s.requests|
      invariant Right(m, requests, after) && Filled(after, s.requests[..k]) && Keeps(resolved, after)
    {
      var r := s.requests[k];
      CoversAt(s, k);
      ResolvedBit(m, s, r);
      after := after[r.index := Some(Bool(tokens[Number(r) - s.first] != 0))];
    }
  }

  method ScatterWords(m: Memory, s: Segment, ghost requests: seq<Request>, resolved: seq<Option<Value>>)
      returns (after: seq<Option<Value>>)
    requires Sound(s) && s.mode == WordsMode && Indexed(requests, s.requests) && Right(m, requests, resolved)
    ensures Right(m, requests, after) && Filled(after, s.requests) && Keeps(resolved, after)
  {
    hide Sound, Proper, ReadLone, Resolve, Covers, Number, Width;
    after := resolved;
    var words := RdsWords(m, s.start.family, s.start.number, s.count);
    for k := 0 to |s.requests|
      invariant Right(m, requests, after) && Filled(after, s.requests[..k]) && Keeps(resolved, after)
    {
      var r := s.requests[k];
      CoversAt(s, k);
      ResolvedWord(m, s, r);
      after := after[r.index := Resolve(words, Number(r) - s.first, r.kind.dtype, r.bit)];
    }
  }

  /** A segment of one request is read with that request's own command. */
  function ReadAlone(m: Memory, r: Request): Value {
    match r.kind
    case Merged(d) =>
      if d.BitInWord? then Bool(Bits.Bit(RdsWords(m, r.base.family, r.base.number, 1)[0], r.bit))
      else if d.Float? then
        var words := RdsWords(m, r.base.family, r.base.number, 2);
        Float(words[0], words[1])
      else ReadSingle(m, r.base.family, r.base.number, d, r.bit)
    case DirectBits => Bool(FirstInt(RD(m, r.base.family, r.base.number, Protocol.Bit)) != 0)
    case Single(d) => ReadSingle(m, r.base.family, r.base.number, d, r.bit)
    case Remark => Text(CommentAt(m, r.base.family, r.base.number))
  }

  lemma AloneIsLone(m: Memory, r: Request)
    requires Proper(r)
    ensures ReadAlone(m, r) == ReadLone(m, r)
  {
    hide RD, CommentAt, Bits.Bit, Device.OrdinaryWord, Device.Native32, Device.DirectBit;
    if r.kind.Merged? { WordRead(m, r.base.family, r.base.number); }
  }

  lemma Lone(s: Segment)
    requires Sound(s)
    ensures |s.requests| >= 1 && (!Mergeable(s.mode) ==> |s.requests| == 1)
  {
  }

  lemma CoversAt(s: Segment, k: nat)
    requires Sound(s) && k < |s.requests|
    ensures Covers(s, s.requests[k])
    ensures s.mode == BitsMode ==> s.requests[k].kind.DirectBits?
    ensures s.mode == WordsMode ==> s.requests[k].kind.Merged?
  {
  }

  /** What executing needs of a plan, and every compiled plan has. */
  ghost predicate Executable(plan: Plan) {
    && (forall k :: 0 <= k < |plan.segments| ==>
          Sound(plan.segments[k]) && Indexed(plan.requests, plan.segments[k].requests))
    && (forall i :: 0 <= i < |plan.requests| ==> Assigned(plan, i))
  }

  ghost predicate Assigned(plan: Plan, i: nat)
    requires i < |plan.requests|
  {
    exists k :: 0 <= k < |plan.segments| && plan.requests[i] in plan.segments[k].requests && plan.requests[i].index == i
  }

  /** `_execute_read_named_plan` */
  method ExecutePlan(plan: Plan, m: Memory) returns (r: Result<seq<(string, Value)>, ReadError>)
    requires Executable(plan)
    ensures r.Ok? && |r.value| == |plan.requests|
    ensures forall i :: 0 <= i < |plan.requests| ==>
      r.value[i] == (plan.requests[i].address, ReadLone(m, plan.requests[i]))
  {
    hide Sound, Proper, ReadLone;
    var resolved: seq<Option<Value>> := seq(|plan.requests|, _ => None);
    for k := 0 to |plan.segments|
      invariant Right(m, plan.requests, resolved)
      invariant forall j :: 0 <= j < k ==> Filled(resolved, plan.segments[j].requests)
    {
      ghost var before := resolved;
      resolved := ReadSegment(m, plan.segments[k], plan.requests, resolved);
      forall j | 0 <= j < k ensures Filled(resolved, plan.segments[j].requests) {
        FilledStays(before, resolved, plan.segments[j].requests);
      }
    }
    var result: seq<(string, Value)> := [];
    for i := 0 to |plan.requests|
      invariant |result| == i
      invariant forall j :: 0 <= j < i ==> result[j] == (plan.requests[j].address, ReadLone(m, plan.requests[j]))
    {
      var request := plan.requests[i];
      assert Assigned(plan, i);
      if resolved[i].None? {
        assert false;
        return Err(Unresolved(request.address));
      }
      result := result + [(request.address, resolved[i].value)];
    }
    return Ok(result);
  }

  lemma FilledStays(before: seq<Option<Value>>, after: seq<Option<Value>>, rs: seq<Request>)
    requires Filled(before, rs) && Keeps(before, after)
    ensures Filled(after, rs)
  {
  }

  // ---------------------------------------------------------------- compiled plans are executable

  lemma {:induction false} FlatMember(segments: seq<Segment>, r: Request)
    ensures r in Flat(segments) <==> exists k :: 0 <= k < |segments| && r in segments[k].requests
  {
    if segments != [] {
      FlatMember(segments[1..], r);
      assert forall k :: 1 <= k < |segments| ==> segments[k] == segments[1..][k - 1];
      if r in Flat(segments[1..]) {
        var k :| 0 <= k < |segments| - 1 && r in segments[1..][k].requests;
        assert r in segments[k + 1].requests;
      }
    }
  }

  lemma CompiledIsExecutable(addresses: seq<string>)
    requires AllParse(addresses)
    ensures Executable(Plan(Requests(addresses), AllSegments(Buckets(Requests(addresses)))))
  {
    hide Sound, Proper, ParseRequest, AllSegments, Buckets, Requests;
    var rs := Requests(addresses);
    var plan := Plan(rs, AllSegments(Buckets(rs)));
    PlanIsSound(rs);
    PlanPartitions(rs, plan.segments);
    forall i | 0 <= i < |rs| ensures rs[i].index == i && Proper(rs[i]) {
      ParsedIsProper(addresses[i], i);
      IndexIsPosition(addresses[i], i);
    }
    forall r: Request ensures r in rs <==> exists k :: 0 <= k < |plan.segments| && r in plan.segments[k].requests {
      FlatMember(plan.segments, r);
      assert r in multiset(rs) <==> r in multiset(Flat(plan.segments));
    }
    forall i | 0 <= i < |rs| ensures Assigned(plan, i) { assert rs[i] in rs; }
    forall k | 0 <= k < |plan.segments| ensures Sound(plan.segments[k]) && Indexed(rs, plan.segments[k].requests) {
      var s := plan.segments[k];
      assert s in plan.segments;
      forall j | 0 <= j < |s.requests| ensures s.requests[j].index < |rs| && rs[s.requests[j].index] == s.requests[j] {
        assert s.requests[j] in s.requests;
        assert s.requests[j] in rs;
      }
    }
  }

  lemma IndexIsPosition(address: string, i: nat)
    requires ParseRequest(address, i).Ok?
    ensures ParseRequest(address, i).value.index == i && ParseRequest(address, i).value.address == address
  {
    hide HelperAddress.Interpret, Device.Parse, KindOf, HelperAddress.Suits;
  }

  // ---------------------------------------------------------------- preflight

  /** `_preflight_read_named_plan` on one segment: its command can be built. */
  predicate Preflight(s: Segment)
    requires s.requests != []
  {
    var r := s.requests[0];
    var f, bare := r.base.family, r.base.suffix == Protocol.Bit;
    match s.mode
    case WordsMode =>
      if |s.requests| > 1 then Device.CountAllowed(f, Protocol.U, s.count)
      else if r.kind == Merged(HelperAddress.BitInWord) then bare && Device.CountAllowed(f, Protocol.U, 1)
      else if r.kind == Merged(HelperAddress.Float) then bare && Device.CountAllowed(f, Protocol.U, 2)
      else bare
    case BitsMode => if |s.requests| > 1 then Device.CountAllowed(f, Protocol.Bit, s.count) else bare
    case RemarkMode => bare && Device.HasComments(f)
    case SingleMode => bare
  }

  /** Preflight rejects a segment only for a suffix on a base device that is read alone. */
  lemma PreflightRejectsSuffixes(s: Segment)
    requires Sound(s) && Proper(s.requests[0])
    requires s.mode == RemarkMode ==> Device.HasComments(s.requests[0].base.family)
    ensures Preflight(s) <==> |s.requests| > 1 || s.requests[0].base.suffix == Protocol.Bit
  {
    assert Covers(s, s.requests[0]);
    if Mergeable(s.mode) { CountIsAllowed(s); }
  }

  predicate AllPreflight(segments: seq<Segment>)
    requires forall k :: 0 <= k < |segments| ==> segments[k].requests != []
  {
    forall k :: 0 <= k < |segments| ==> Preflight(segments[k])
  }

  lemma RemarksHaveComments(address: string, i: nat)
    requires ParseRequest(address, i).Ok? && ParseRequest(address, i).value.kind.Remark?
    ensures Device.HasComments(ParseRequest(address, i).value.base.family)
  {
    hide HelperAddress.Interpret, Device.Parse, Device.OrdinaryWord, Device.Native32, Device.DirectBit;
    hide Device.HasComments;
  }

  /** A device that carries a suffix is read together with another request. */
  predicate BareOrShared(s: Segment) {
    |s.requests| > 1 || (|s.requests| == 1 && s.requests[0].base.suffix == Protocol.Bit)
  }

  /** The requests that end up alone in a segment name bare devices. */
  predicate LoneDevicesAreBare(rs: seq<Request>) {
    forall k :: 0 <= k < |AllSegments(Buckets(rs))| ==> BareOrShared(AllSegments(Buckets(rs))[k])
  }

  predicate SuffixFree(rs: seq<Request>) { forall i :: 0 <= i < |rs| ==> rs[i].base.suffix == Protocol.Bit }

  /** Preflight passes a compiled plan exactly when no suffixed device is read alone. */
  lemma PreflightPlan(addresses: seq<string>, plan: Plan)
    requires AllParse(addresses) && plan == Plan(Requests(addresses), AllSegments(Buckets(Requests(addresses))))
    ensures forall k :: 0 <= k < |plan.segments| ==> plan.segments[k].requests != []
    ensures AllPreflight(plan.segments) <==> LoneDevicesAreBare(plan.requests)
  {
    hide ParseRequest, AllSegments, Buckets, Requests, Sound, Proper, Preflight;
    CompiledIsExecutable(addresses);
    forall k | 0 <= k < |plan.segments|
      ensures plan.segments[k].requests != [] && (Preflight(plan.segments[k]) <==> BareOrShared(plan.segments[k]))
    {
      var s := plan.segments[k];
      Lone(s);
      var r := s.requests[0];
      assert plan.requests[r.index] == r;
      CoversAt(s, 0);
      if r.kind.Remark? { RemarksHaveComments(addresses[r.index], r.index); }
      ModeOfRemark(s);
      PreflightRejectsSuffixes(s);
    }
  }

  /** Without suffixes there is nothing to reject. */
  lemma SuffixFreePasses(rs: seq<Request>)
    requires SuffixFree(rs)
    ensures LoneDevicesAreBare(rs)
  {
    hide Sound, AllSegments, Buckets;
    var segments := AllSegments(Buckets(rs));
    PlanIsSound(rs);
    PlanPartitions(rs, segments);
    forall k | 0 <= k < |segments| ensures BareOrShared(segments[k]) {
      var s := segments[k];
      assert s in segments;
      Lone(s);
      var r := s.requests[0];
      assert r in s.requests;
      FlatMember(segments, r);
      assert r in multiset(Flat(segments)) && r in multiset(rs);
    }
  }

  lemma ModeOfRemark(s: Segment)
    requires s.requests != [] && Covers(s, s.requests[0])
    ensures s.mode == RemarkMode ==> s.requests[0].kind.Remark?
  {
  }

  // ---------------------------------------------------------------- read_named

  /** Equal addresses are equal reads, so an accepted list has no address twice. */
  lemma AddressesAreDistinct(addresses: seq<string>)
    requires AllParse(addresses) && Distinct(Requests(addresses))
    ensures forall i, j :: 0 <= i < j < |addresses| ==> addresses[i] != addresses[j]
  {
    hide ParseRequest, KeyOf;
    forall i, j | 0 <= i < j < |addresses| ensures addresses[i] != addresses[j] {
      if addresses[i] == addresses[j] { SameKey(addresses[i], i, j); }
    }
  }

  lemma SameKey(address: string, i: nat, j: nat)
    requires ParseRequest(address, i).Ok?
    ensures ParseRequest(address, j).Ok?
    ensures KeyOf(ParseRequest(address, i).value) == KeyOf(ParseRequest(address, j).value)
  {
    hide HelperAddress.Interpret, Device.Parse, KindOf, HelperAddress.Suits;
  }

  /**
   `read_named` over a fixed memory: one entry per address in the caller's order, each with the value a lone read of
   that address gives. A list is accepted exactly when it is not empty, its addresses parse and are distinct, and every
   device that is read alone is bare; so every list of distinct addresses without suffixed devices is.
   */
  method ReadNamed(addresses: seq<string>, m: Memory) returns (r: Result<seq<(string, Value)>, ReadError>)
    ensures r.Ok? ==>
      && |r.value| == |addresses| && AllParse(addresses) && Distinct(Requests(addresses))
      && (forall i :: 0 <= i < |addresses| ==> r.value[i] == (addresses[i], ReadLone(m, Requests(addresses)[i])))
      && (forall i, j :: 0 <= i < j < |addresses| ==> r.value[i].0 != r.value[j].0)
    ensures r.Ok? <==>
      addresses != [] && AllParse(addresses) && Distinct(Requests(addresses)) && LoneDevicesAreBare(Requests(addresses))
    ensures addresses != [] && AllParse(addresses) && Distinct(Requests(addresses)) && SuffixFree(Requests(addresses))
      ==> r.Ok?
  {
    hide Sound, Proper, ReadLone, Preflight, ParseRequest, AllSegments, Buckets, KeyOf, LoneDevicesAreBare, SuffixFree;
    var compiled := CompilePlan(addresses);
    var plan: Plan;
    match compiled {
      case Err(e) => return Err(NotPlanned(e));
      case Ok(p) => plan := p;
    }
    CompiledIsExecutable(addresses);
    PreflightPlan(addresses, plan);
    if SuffixFree(plan.requests) { SuffixFreePasses(plan.requests); }
    if !AllPreflight(plan.segments) { return Err(Rejected); }
    r := ExecutePlan(plan, m);
    AddressesAreDistinct(addresses);
    forall i | 0 <= i < |addresses| ensures plan.requests[i].address == addresses[i] {
      IndexIsPosition(addresses[i], i);
    }
  }
}
