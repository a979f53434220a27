/**
 The named-read optimiser: addresses become requests, requests are bucketed by family, sorted, and merged greedily into
 segments. `CompilePlan` does it with loops; `Requests`, `Buckets`, `Sorted` and `Greedy` say what it computes.
 */
module ReadPlan {
  import opened Wrappers
  import Protocol
  import Device
  import HelperAddress

  type Dtype = HelperAddress.Dtype

  /** `Single` and `Remark` stand for the `SINGLE_*` and `COMMENT` kinds, which are read one by one. */
  datatype Kind = Merged(dtype: Dtype) | DirectBits | Single(single: Dtype) | Remark

  datatype Request = Request(index: nat, address: string, base: Device.Address, kind: Kind, bit: nat)

  datatype Mode = WordsMode | BitsMode | SingleMode | RemarkMode

  datatype Segment = Segment(start: Device.Address, first: nat, count: nat, mode: Mode, requests: seq<Request>)

  datatype Plan = Plan(requests: seq<Request>, segments: seq<Segment>)

  datatype PlanError = NoAddresses | BadAddress(error: HelperAddress.AddressError) | Duplicated

  // ---------------------------------------------------------------- one address

  predicate IsDouble(d: Dtype) { d == HelperAddress.Word(Protocol.D) || d == HelperAddress.Word(Protocol.L) }

  function KindOf(f: Device.Family, d: Dtype): Kind {
    if d.OneBit? && Device.DirectBit(f) then DirectBits
    else if d.BitInWord? then (if Device.OrdinaryWord(f) then Merged(d) else Single(d))
    else if d.Comment? then Remark
    else if !Device.OrdinaryWord(f) || d == HelperAddress.Word(Protocol.H) || d.OneBit?
            || (Device.Native32(f) && IsDouble(d)) then Single(d)
    else Merged(d)
  }

  /** `_parse_read_named_request` */
  function ParseRequest(address: string, index: nat): Result<Request, HelperAddress.AddressError> {
    match HelperAddress.Interpret(address)
    case Err(e) => Err(e)
    case Ok((raw, d, bit)) =>
      match Device.Parse(raw)
      case Err(e) => Err(HelperAddress.BadDevice(e))
      case Ok(base) =>
        if !HelperAddress.Suits(d, base.family) then Err(HelperAddress.WrongFamily)
        else if d.BitInWord? then
          if bit == None || !(0 <= bit.value <= 15) then Err(HelperAddress.BadIndex)
          else Ok(Request(index, address, base, KindOf(base.family, d), bit.value))
        else Ok(Request(index, address, base, KindOf(base.family, d), 0))
  }

  /** `_get_word_width` */
  function Width(k: Kind): (w: nat)
    ensures 1 <= w <= 2
  {
    if k.Merged? && (k.dtype.Float? || IsDouble(k.dtype)) then 2 else 1
  }

  /** `_read_plan_number` */
  function Number(r: Request): nat {
    if r.kind.DirectBits? && Device.BitBank(r.base.family) then Device.Logical(r.base.number) else r.base.number
  }

  function End(r: Request): nat { Number(r) + Width(r.kind) }

  /** `_read_plan_mode` */
  function ModeOf(k: Kind): Mode {
    match k
    case DirectBits => BitsMode
    case Single(_) => SingleMode
    case Remark => RemarkMode
    case Merged(_) => WordsMode
  }

  predicate Mergeable(m: Mode) { m == WordsMode || m == BitsMode }

  /** `_read_plan_segment_limit` */
  function Limit(f: Device.Family, m: Mode): nat {
    if m == BitsMode then 1000 else if f == Device.TM then 512 else if f == Device.Z then 12 else 1000
  }

  /** What makes two addresses the same read. */
  datatype SemanticKey = SemanticKey(family: Device.Family, number: nat, dtype: Dtype, bit: Option<nat>)

  function KeyOf(r: Request): SemanticKey {
    var d := match r.kind
      case Merged(d) => d
      case DirectBits => HelperAddress.OneBit
      case Single(d) => d
      case Remark => HelperAddress.Comment;
    SemanticKey(r.base.family, r.base.number, d, if d.BitInWord? then Some(r.bit) else None)
  }

  // ---------------------------------------------------------------- all addresses

  predicate AllParse(addresses: seq<string>) { forall i :: 0 <= i < |addresses| ==> ParseRequest(addresses[i], i).Ok? }

  /** The request at each position, in the caller's order. */
  function Requests(addresses: seq<string>): (rs: seq<Request>)
    requires AllParse(addresses)
    ensures |rs| == |addresses| && forall i :: 0 <= i < |rs| ==> ParseRequest(addresses[i], i) == Ok(rs[i])
  {
    seq(|addresses|, i requires 0 <= i < |addresses| => ParseRequest(addresses[i], i).value)
  }

  predicate Distinct(rs: seq<Request>) { forall i, j :: 0 <= i < j < |rs| ==> KeyOf(rs[i]) != KeyOf(rs[j]) }

  // ---------------------------------------------------------------- buckets

  datatype Bucket = Bucket(family: Device.Family, requests: seq<Request>)

  /** Appends to the bucket of the family, or opens one at the end. */
  function AddTo(buckets: seq<Bucket>, r: Request): seq<Bucket> {
    if buckets == [] then [Bucket(r.base.family, [r])]
    else if buckets[0].family == r.base.family then
      [Bucket(r.base.family, buckets[0].requests + [r])] + buckets[1..]
    else [buckets[0]] + AddTo(buckets[1..], r)
  }

  function Buckets(rs: seq<Request>): seq<Bucket> {
    if rs == [] then [] else AddTo(Buckets(rs[..|rs| - 1]), rs[|rs| - 1])
  }

  // ---------------------------------------------------------------- sorting

  /** Order by start, wider first, then by position in the input. */
  predicate Before(a: Request, b: Request) {
    || Number(a) < Number(b)
    || (Number(a) == Number(b) && Width(a.kind) > Width(b.kind))
    || (Number(a) == Number(b) && Width(a.kind) == Width(b.kind) && a.index <= b.index)
  }

  function Insert(r: Request, rs: seq<Request>): seq<Request> {
    if rs == [] || Before(r, rs[0]) then [r] + rs else [rs[0]] + Insert(r, rs[1..])
  }

  function Sorted(rs: seq<Request>): seq<Request> {
    if rs == [] then [] else Insert(rs[0], Sorted(rs[1..]))
  }

  // ---------------------------------------------------------------- greedy merging

  predicate CanAppend(first: Request, end: nat, r: Request) {
    && Mergeable(ModeOf(r.kind)) && ModeOf(first.kind) == ModeOf(r.kind)
    && Number(first) <= Number(r) <= end
    && End(r) - Number(first) <= Limit(r.base.family, ModeOf(r.kind))
  }

  function Max(a: nat, b: nat): nat { if a < b then b else a }

  /** How far the segment begun at `i`, which covers up to `end` so far, extends from `j` on. */
  function Extend(rs: seq<Request>, i: nat, j: nat, end: nat): (r: (nat, nat))
    requires i < j <= |rs|
    ensures j <= r.0 <= |rs| && end <= r.1
    decreases |rs| - j
  {
    if j < |rs| && CanAppend(rs[i], end, rs[j]) then Extend(rs, i, j + 1, Max(end, End(rs[j]))) else (j, end)
  }

  /** The requests `pending`, read together from `first` up to `end`. */
  function MakeSegment(first: Request, end: nat, pending: seq<Request>): Segment
    requires Number(first) <= end
  {
    Segment(Device.Address(first.base.family, first.base.number, Protocol.Bit), Number(first), end - Number(first),
            ModeOf(first.kind), pending)
  }

  /** The segments of a sorted bucket from position `i` on. */
  function Greedy(rs: seq<Request>, i: nat): seq<Segment>
    requires i <= |rs|
    decreases |rs| - i
  {
    if i == |rs| then []
    else
      var (j, end) := Extend(rs, i, i + 1, End(rs[i]));
      [MakeSegment(rs[i], end, rs[i..j])] + Greedy(rs, j)
  }

  function AllSegments(buckets: seq<Bucket>): seq<Segment> {
    if buckets == [] then [] else Greedy(Sorted(buckets[0].requests), 0) + AllSegments(buckets[1..])
  }

  // ---------------------------------------------------------------- the compiler

  lemma {:induction false} AllSegmentsSnoc(buckets: seq<Bucket>, b: Bucket)
    ensures AllSegments(buckets + [b]) == AllSegments(buckets) + Greedy(Sorted(b.requests), 0)
  {
    if buckets != [] {
      assert (buckets + [b])[1..] == buckets[1..] + [b];
      AllSegmentsSnoc(buckets[1..], b);
    }
  }

  /** A segment that extends no further is the next one. */
  lemma NextSegment(rs: seq<Request>, segments: seq<Segment>, i: nat, j: nat, end: nat)
    requires i < j <= |rs| && Number(rs[i]) <= end && Extend(rs, i, i + 1, End(rs[i])) == (j, end)
    requires segments + Greedy(rs, i) == Greedy(rs, 0)
    ensures segments + [MakeSegment(rs[i], end, rs[i..j])] + Greedy(rs, j) == Greedy(rs, 0)
  {
    hide Extend, MakeSegment;
    var s := MakeSegment(rs[i], end, rs[i..j]);
    assert segments + [s] + Greedy(rs, j) == segments + ([s] + Greedy(rs, j));
  }

  /** The segment begun at `i` has taken `rs[i..k]` so far, covers up to `end`, and may extend further. */
  ghost predicate Growing(rs: seq<Request>, i: nat, k: nat, end: nat) {
    && i < k <= |rs| && Number(rs[i]) <= end && Mergeable(ModeOf(rs[i].kind))
    && Extend(rs, i, k, end) == Extend(rs, i, i + 1, End(rs[i]))
  }

  lemma Grown(rs: seq<Request>, i: nat, k: nat, end: nat)
    requires Growing(rs, i, k, end) && k < |rs|
    ensures if CanAppend(rs[i], end, rs[k]) then Growing(rs, i, k + 1, Max(end, End(rs[k])))
            else Extend(rs, i, i + 1, End(rs[i])) == (k, end)
    ensures CanAppend(rs[i], end, rs[k]) ==> Mergeable(ModeOf(rs[k].kind))
  {
  }

  lemma Started(rs: seq<Request>, k: nat)
    requires k < |rs|
    ensures if Mergeable(ModeOf(rs[k].kind)) then Growing(rs, k, k + 1, End(rs[k]))
            else Extend(rs, k, k + 1, End(rs[k])) == (k + 1, End(rs[k]))
  {
  }

  /** The merging loop over one sorted bucket. */
  method MergeBucket(rs: seq<Request>) returns (segments: seq<Segment>)
    ensures segments == Greedy(rs, 0)
  {
    hide Greedy, Extend, CanAppend, MakeSegment, Growing, ModeOf, Number;
    segments := [];
    var pending: seq<Request> := [];
    var start: Option<Request> := None;
    var end := 0;
    var k := 0;
    ghost var i := 0;
    while k < |rs|
      invariant i <= k <= |rs| && pending == rs[i..k]
      invariant start == if i == k then None else Some(rs[i])
      invariant i < k ==> Growing(rs, i, k, end) && Number(rs[i]) <= end
      invariant segments + Greedy(rs, i) == Greedy(rs, 0)
    {
      var r := rs[k];
      Started(rs, k);
      if i < k { Grown(rs, i, k, end); }
      if start == None || !CanAppend(start.value, end, r) {
        if start.Some? {
          NextSegment(rs, segments, i, k, end);
          segments := segments + [MakeSegment(start.value, end, pending)];
          i := k;
        }
        pending, start, end := [], Some(r), End(r);
      } else if End(r) > end {
        end := End(r);
      }
      pending := pending + [r];
      k := k + 1;
      assert pending == rs[i..k];
      if !Mergeable(ModeOf(r.kind)) {
        NextSegment(rs, segments, i, k, end);
        segments := segments + [MakeSegment(start.value, end, pending)];
        i := k;
        pending, start, end := [], None, 0;
      }
    }
    if start.Some? {
      Ended(rs, i, end);
      NextSegment(rs, segments, i, k, end);
      segments := segments + [MakeSegment(start.value, end, pending)];
    }
    Ends(rs);
  }

  lemma Ended(rs: seq<Request>, i: nat, end: nat)
    requires Growing(rs, i, |rs|, end)
    ensures Extend(rs, i, i + 1, End(rs[i])) == (|rs|, end)
  {
  }

  lemma Ends(rs: seq<Request>)
    ensures Greedy(rs, |rs|) == []
  {
  }

  lemma RequestsSnoc(addresses: seq<string>, i: nat)
    requires i < |addresses| && AllParse(addresses[..i]) && ParseRequest(addresses[i], i).Ok?
    ensures AllParse(addresses[..i + 1])
    ensures Requests(addresses[..i + 1]) == Requests(addresses[..i]) + [ParseRequest(addresses[i], i).value]
  {
    hide ParseRequest;
  }

  lemma BucketsSnoc(rs: seq<Request>, r: Request)
    ensures Buckets(rs + [r]) == AddTo(Buckets(rs), r)
  {
    assert (rs + [r])[..|rs|] == rs;
  }

  ghost predicate KeysOf(keys: set<SemanticKey>, rs: seq<Request>) {
    forall key :: key in keys <==> exists j :: 0 <= j < |rs| && KeyOf(rs[j]) == key
  }

  lemma KeysSnoc(keys: set<SemanticKey>, rs: seq<Request>, r: Request)
    requires KeysOf(keys, rs) && Distinct(rs)
    ensures KeyOf(r) in keys <==> !Distinct(rs + [r])
    ensures KeysOf(keys + {KeyOf(r)}, rs + [r])
  {
    hide KeyOf;
    var more := rs + [r];
    assert forall j :: 0 <= j < |rs| ==> more[j] == rs[j];
    assert more[|rs|] == r;
  }

  /** A failure on a prefix is a failure. */
  lemma PrefixFails(addresses: seq<string>, i: nat)
    requires i <= |addresses| && AllParse(addresses)
    ensures AllParse(addresses[..i]) && Requests(addresses[..i]) == Requests(addresses)[..i]
    ensures Distinct(Requests(addresses)) ==> Distinct(Requests(addresses[..i]))
  {
    hide ParseRequest, KeyOf;
  }

  /** `_compile_read_named_plan` */
  method CompilePlan(addresses: seq<string>) returns (r: Result<Plan, PlanError>)
    ensures r.Ok? <==> addresses != [] && AllParse(addresses) && Distinct(Requests(addresses))
    ensures r.Ok? ==>
      r.value == Plan(Requests(addresses), AllSegments(Buckets(Requests(addresses))))
  {
    hide ParseRequest, KeyOf, Buckets, AllSegments, Greedy, Sorted, AddTo, Distinct, KeysOf, Requests;
    if addresses == [] { return Err(NoAddresses); }
    var requests: seq<Request> := [];
    var buckets: seq<Bucket> := [];
    var keys: set<SemanticKey> := {};
    Empty();
    for i := 0 to |addresses|
      invariant AllParse(addresses[..i]) && requests == Requests(addresses[..i])
      invariant Distinct(requests) && buckets == Buckets(requests) && KeysOf(keys, requests)
    {
      if AllParse(addresses) { PrefixFails(addresses, i + 1); }
      match ParseRequest(addresses[i], i) {
        case Err(e) => return Err(BadAddress(e));
        case Ok(request) =>
          RequestsSnoc(addresses, i);
          BucketsSnoc(requests, request);
          KeysSnoc(keys, requests, request);
          if KeyOf(request) in keys {
            return Err(Duplicated);
          }
          keys := keys + {KeyOf(request)};
          requests := requests + [request];
          buckets := AddTo(buckets, request);
      }
    }
    assert addresses[..|addresses|] == addresses;
    var segments := MergeAll(buckets);
    return Ok(Plan(requests, segments));
  }

  lemma Empty()
    ensures Requests([]) == [] && Distinct([]) && Buckets([]) == [] && KeysOf({}, [])
  {
  }

  method MergeAll(buckets: seq<Bucket>) returns (segments: seq<Segment>)
    ensures segments == AllSegments(buckets)
  {
    hide Greedy, Sorted;
    segments := [];
    for b := 0 to |buckets|
      invariant segments == AllSegments(buckets[..b])
    {
      var merged := MergeBucket(Sorted(buckets[b].requests));
      AllSegmentsSnoc(buckets[..b], buckets[b]);
      assert buckets[..b + 1] == buckets[..b] + [buckets[b]];
      segments := segments + merged;
    }
    assert buckets[..|buckets|] == buckets;
  }
}
