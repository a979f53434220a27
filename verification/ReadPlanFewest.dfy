/**
 The number of reads. A plan needs no more of them than any grouping of its requests exactly when it has as many
 segments as planning each mode by itself would give; and, where no limit is in the way, exactly when sorting puts no
 request of another mode between two that touch.
 */
module ReadPlanFewest {
  import opened Wrappers
  import opened ReadPlan
  import opened ReadPlanSegments
  import opened ReadPlanReads
  import Protocol
  import Device
  import HelperAddress

  // ---------------------------------------------------------------- the plan is such a choice of reads

  ghost predicate AllSound(segments: seq<Segment>) { forall i :: 0 <= i < |segments| ==> Sound(segments[i]) }

  function ReadOf(s: Segment): Read
    requires s.requests != []
  {
    if Mergeable(s.mode) then Joint(s.start.family, s.mode, s.first, s.count) else Lone(s.requests[0])
  }

  ghost function ReadsOf(segments: seq<Segment>): (sent: seq<Read>)
    requires AllSound(segments)
    ensures |sent| == |segments|
  {
    seq(|segments|, i requires 0 <= i < |segments| => ReadOf(segments[i]))
  }

  lemma {:induction false} InSomeSegment(segments: seq<Segment>, r: Request) returns (i: nat)
    requires r in Flat(segments)
    ensures i < |segments| && r in segments[i].requests
  {
    if r in segments[0].requests { i := 0; } else { i := InSomeSegment(segments[1..], r); i := i + 1; }
  }

  lemma {:induction false} InFlatSegments(segments: seq<Segment>, i: nat, r: Request)
    requires i < |segments| && r in segments[i].requests
    ensures r in Flat(segments)
  {
    if i > 0 { InFlatSegments(segments[1..], i - 1, r); }
  }

  /** The segments are sound and hold the requests of `rs`. */
  ghost predicate Planned(rs: seq<Request>, segments: seq<Segment>) {
    AllSound(segments) && forall r :: r in rs <==> r in Flat(segments)
  }

  lemma PlanIsPlanned(rs: seq<Request>)
    ensures Planned(rs, PlanOf(rs))
  {
    hide Sound, Buckets, AllSegments;
    PlanIsSound(rs);
    PlanPartitions(rs, PlanOf(rs));
    SameElements(rs, Flat(PlanOf(rs)));
  }

  lemma SegmentIsAllowed(rs: seq<Request>, s: Segment)
    requires Sound(s) && forall r :: r in s.requests ==> r in rs
    ensures Allowed(rs, ReadOf(s)) && forall r :: r in s.requests ==> Serves(ReadOf(s), r)
  {
    hide ModeOf, Number, Limit;
    assert Covers(s, s.requests[0]);
    forall p: nat | s.first <= p < s.first + s.count ensures AskedFor(rs, s.start.family, s.mode, p) {
      assert Asked(s.requests, p);
      var k :| 0 <= k < |s.requests| && Number(s.requests[k]) <= p < End(s.requests[k]);
      assert Covers(s, s.requests[k]) && s.requests[k] in rs;
    }
  }

  lemma PlanServes(rs: seq<Request>, segments: seq<Segment>)
    requires Planned(rs, segments)
    ensures ServesAll(rs, ReadsOf(segments))
  {
    hide Sound, Serves, Allowed, ReadOf;
    var sent := ReadsOf(segments);
    forall k | 0 <= k < |sent|
      ensures Allowed(rs, sent[k]) && forall r :: r in segments[k].requests ==> Serves(sent[k], r)
    {
      forall r | r in segments[k].requests ensures r in rs { InFlatSegments(segments, k, r); }
      SegmentIsAllowed(rs, segments[k]);
    }
    forall r | r in rs ensures exists k :: 0 <= k < |sent| && Serves(sent[k], r) {
      var k := InSomeSegment(segments, r);
      assert Serves(sent[k], r);
    }
  }

  // ---------------------------------------------------------------- where a request splits two that touch

  /** The whole list, family by family and mode by mode, fits one read. */
  ghost predicate WithinLimits(rs: seq<Request>) {
    forall a, b :: a in rs && b in rs && a.base.family == b.base.family && ModeOf(a.kind) == ModeOf(b.kind) ==>
      End(b) - Number(a) <= Limit(a.base.family, ModeOf(a.kind))
  }

  /** Nothing of another mode sorts between two requests of the segment. */
  ghost predicate Unsplit(rs: seq<Request>, s: Segment) {
    forall a, b, c :: a in s.requests && b in s.requests && c in rs ==> !Splits(a, c, b)
  }

  lemma IndexOrder(rs: seq<Request>, ss: seq<Request>, f: Device.Family, i: nat, j: nat)
    requires Numbered(rs) && Bucketed(rs, ss, f) && i < |ss| && j < |ss|
    ensures Before(ss[i], ss[j]) && ModeOf(ss[i].kind) != ModeOf(ss[j].kind) ==> i < j
  {
    hide ModeOf, Number, Width;
    assert ss[i] in rs && ss[j] in rs;
    assert j < i ==> Before(ss[j], ss[i]);
  }

  lemma RunIsUnsplit(rs: seq<Request>, ss: seq<Request>, f: Device.Family, i: nat, j: nat)
    requires Numbered(rs) && Bucketed(rs, ss, f) && Run(ss, i, j)
    ensures forall a, b, c :: a in ss[i..j] && b in ss[i..j] && c in rs ==> !Splits(a, c, b)
  {
    hide Splits, Run, Numbered, InOrder;
    RunBounds(ss, i, j);
    forall a, b, c | a in ss[i..j] && b in ss[i..j] && c in rs ensures !Splits(a, c, b) {
      var x :| i <= x < j && ss[x] == a;
      var y :| i <= y < j && ss[y] == b;
      FamilyAt(ss, f, x);
      if c in ss {
        var z :| 0 <= z < |ss| && ss[z] == c;
        NothingSplits(rs, ss, f, i, j, x, y, z);
      } else {
        assert c.base.family != a.base.family;
        OtherFamily(a, c, b);
      }
    }
  }

  lemma OtherFamily(a: Request, c: Request, b: Request)
    requires c.base.family != a.base.family
    ensures !Splits(a, c, b)
  {
    hide Before, ModeOf;
  }

  lemma NothingSplits(rs: seq<Request>, ss: seq<Request>, f: Device.Family, i: nat, j: nat, x: nat, y: nat, z: nat)
    requires Numbered(rs) && Bucketed(rs, ss, f) && Run(ss, i, j) && j <= |ss| && i <= x < j && i <= y < j && z < |ss|
    ensures !Splits(ss[x], ss[z], ss[y])
  {
    hide ModeOf, Before, Run, Numbered, Bucketed;
    IndexOrder(rs, ss, f, x, z);
    IndexOrder(rs, ss, f, z, y);
    RunMode(ss, i, j, x);
    if i <= z < j { RunMode(ss, i, j, z); }
  }

  lemma {:induction false} GreedyUnsplit(rs: seq<Request>, ss: seq<Request>, f: Device.Family, i: nat)
    requires Numbered(rs) && Bucketed(rs, ss, f) && i <= |ss|
    ensures forall s :: s in Greedy(ss, i) ==> Unsplit(rs, s)
    decreases |ss| - i
  {
    hide Bucketed, Splits, Extend, Numbered, Run;
    if i < |ss| {
      var j := Extend(ss, i, i + 1, End(ss[i])).0;
      GreedyStops(ss, i, j);
      RunIsUnsplit(rs, ss, f, i, j);
      GreedyUnsplit(rs, ss, f, j);
    }
  }

  lemma {:induction false} BucketsUnsplit(rs: seq<Request>, buckets: seq<Bucket>)
    requires Numbered(rs) && BucketsOf(rs, buckets)
    ensures forall s :: s in AllSegments(buckets) ==> Unsplit(rs, s)
  {
    hide Bucketed, Unsplit, Numbered;
    if buckets != [] {
      GreedyUnsplit(rs, Sorted(buckets[0].requests), buckets[0].family, 0);
      BucketsUnsplit(rs, buckets[1..]);
    }
  }

  /** The read of two segments of one family and mode that touch. */
  function Union(s: Segment, t: Segment): Read {
    var first := if s.first <= t.first then s.first else t.first;
    Joint(s.start.family, s.mode, first, Max(s.first + s.count, t.first + t.count) - first)
  }

  lemma LastOf(s: Segment) returns (r: Request)
    requires Sound(s)
    ensures r in s.requests && End(r) == s.first + s.count && Covers(s, r)
  {
    hide ModeOf, Number, Limit;
    var p := s.first + s.count - 1;
    assert Asked(s.requests, p);
    var k :| 0 <= k < |s.requests| && Number(s.requests[k]) <= p < End(s.requests[k]);
    assert Covers(s, s.requests[k]);
    r := s.requests[k];
  }

  lemma UnionIsAllowed(rs: seq<Request>, s: Segment, t: Segment)
    requires WithinLimits(rs) && Sound(s) && Sound(t) && Mergeable(s.mode)
    requires s.start.family == t.start.family && s.mode == t.mode
    requires t.first <= s.first + s.count && s.first <= t.first + t.count
    requires Allowed(rs, ReadOf(s)) && Allowed(rs, ReadOf(t))
    requires forall r :: r in s.requests || r in t.requests ==> r in rs
    ensures Allowed(rs, Union(s, t))
    ensures forall r :: Serves(ReadOf(s), r) || Serves(ReadOf(t), r) ==> Serves(Union(s, t), r)
  {
    hide ModeOf, Number, Limit, AskedFor;
    var u := Union(s, t);
    assert Covers(s, s.requests[0]) && Covers(t, t.requests[0]);
    var a := if s.first <= t.first then s.requests[0] else t.requests[0];
    var x := LastOf(s);
    var y := LastOf(t);
    var b := if t.first + t.count <= s.first + s.count then x else y;
    assert a in rs && b in rs && End(b) - Number(a) == u.count;
  }

  /** Two reads give way to one that serves what they served. */
  lemma OneInsteadOfTwo(rs: seq<Request>, sent: seq<Read>, i: nat, j: nat, u: Read) returns (fewer: seq<Read>)
    requires ServesAll(rs, sent) && i < |sent| && j < |sent| && i != j && Allowed(rs, u)
    requires forall r :: r in rs && (Serves(sent[i], r) || Serves(sent[j], r)) ==> Serves(u, r)
    ensures ServesAll(rs, fewer) && |fewer| == |sent| - 1
  {
    hide Serves, Allowed;
    var swapped := sent[i := u];
    fewer := swapped[..j] + swapped[j + 1..];
    var at := if i < j then i else i - 1;
    assert fewer[at] == u;
    forall k | 0 <= k < |fewer| ensures Allowed(rs, fewer[k]) {
      assert fewer[k] == swapped[if k < j then k else k + 1];
    }
    forall r | r in rs ensures exists k :: 0 <= k < |fewer| && Serves(fewer[k], r) {
      var k :| 0 <= k < |sent| && Serves(sent[k], r);
      if k == i || k == j {
        assert Serves(fewer[at], r);
      } else {
        assert fewer[if k < j then k else k - 1] == sent[k];
      }
    }
  }

  lemma CoversOf(s: Segment, r: Request)
    requires Sound(s) && r in s.requests
    ensures Covers(s, r)
  {
    hide ModeOf, Number, Limit;
  }

  lemma SplitSegments(rs: seq<Request>, a: Request, c: Request, b: Request, s: Segment, t: Segment)
    requires Splits(a, c, b) && Number(b) <= End(a) && Sound(s) && Sound(t) && a in s.requests && b in t.requests
    ensures Mergeable(s.mode) && s.mode == t.mode && s.start.family == t.start.family
    ensures t.first <= s.first + s.count && s.first <= t.first + t.count
  {
    hide ModeOf, Number, Sound, Width;
    CoversOf(s, a);
    CoversOf(t, b);
  }

  /** A request that splits two that touch costs a read, where no limit is in the way. */
  lemma SplitIsNotFewest(rs: seq<Request>) returns (fewer: seq<Read>)
    requires Numbered(rs) && WithinLimits(rs) && !Separated(rs)
    ensures ServesAll(rs, fewer) && |fewer| < |PlanOf(rs)|
  {
    hide Sound, Splits, Number, Serves, Allowed, ReadOf, Union, AllSegments, Buckets, Numbered, WithinLimits, BucketsOf;
    var a, b, c :| a in rs && b in rs && c in rs && Splits(a, c, b) && !(End(a) < Number(b));
    var segments := PlanOf(rs);
    PlanIsPlanned(rs);
    BucketsAreOf(rs);
    BucketsUnsplit(rs, Buckets(rs));
    var i := InSomeSegment(segments, a);
    var j := InSomeSegment(segments, b);
    assert Unsplit(rs, segments[i]);
    var s, t := segments[i], segments[j];
    SplitSegments(rs, a, c, b, s, t);
    PlanServes(rs, segments);
    var sent := ReadsOf(segments);
    assert sent[i] == ReadOf(s) && sent[j] == ReadOf(t);
    forall r | r in s.requests ensures r in rs { InFlatSegments(segments, i, r); }
    forall r | r in t.requests ensures r in rs { InFlatSegments(segments, j, r); }
    SegmentIsAllowed(rs, s);
    SegmentIsAllowed(rs, t);
    UnionIsAllowed(rs, s, t);
    fewer := OneInsteadOfTwo(rs, sent, i, j, Union(s, t));
  }

  /** No choice of reads that serves the requests has fewer than `n`. */
  ghost predicate NoFewer(rs: seq<Request>, n: nat) { forall sent :: ServesAll(rs, sent) ==> n <= |sent| }

  /**
   The plan itself serves the requests, however they could be grouped. If no request of another mode sorts between two
   that touch, no choice of reads has fewer; and where no limit is in the way, only then.
   */
  lemma PlanIsFewest(rs: seq<Request>)
    requires Numbered(rs)
    ensures exists sent :: ServesAll(rs, sent) && |sent| == |PlanOf(rs)|
    ensures Separated(rs) ==> NoFewer(rs, |PlanOf(rs)|)
    ensures WithinLimits(rs) ==> (Separated(rs) <==> NoFewer(rs, |PlanOf(rs)|))
  {
    hide ServesAll, PlanOf, Separated, WithinLimits, Planned, Numbered;
    PlanIsPlanned(rs);
    PlanServes(rs, PlanOf(rs)) by { assert Planned(rs, PlanOf(rs)); }
    if Separated(rs) {
      forall sent | ServesAll(rs, sent) ensures |PlanOf(rs)| <= |sent| { SeparatedIsFewest(rs, sent); }
    } else if WithinLimits(rs) {
      var fewer := SplitIsNotFewest(rs);
    }
  }

  // ---------------------------------------------------------------- the fewest reads there are

  function OfMode(rs: seq<Request>, m: Mode): seq<Request> {
    if rs == [] then []
    else if ModeOf(rs[0].kind) == m then [rs[0]] + OfMode(rs[1..], m)
    else OfMode(rs[1..], m)
  }

  function ModeOfRead(read: Read): Mode {
    match read
    case Lone(r) => ModeOf(r.kind)
    case Joint(_, m, _, _) => m
  }

  function SentIn(sent: seq<Read>, m: Mode): seq<Read> {
    if sent == [] then []
    else if ModeOfRead(sent[0]) == m then [sent[0]] + SentIn(sent[1..], m)
    else SentIn(sent[1..], m)
  }

  lemma {:induction false} OfModeIs(rs: seq<Request>, m: Mode)
    ensures forall r :: r in OfMode(rs, m) <==> r in rs && ModeOf(r.kind) == m
    ensures Numbered(rs) ==> Numbered(OfMode(rs, m))
  {
    hide ModeOf;
    if rs != [] {
      OfModeIs(rs[1..], m);
      if ModeOf(rs[0].kind) == m && Numbered(rs) {
        var rest := OfMode(rs[1..], m);
        forall j | 0 <= j < |rest| ensures rest[j].index != rs[0].index { assert rest[j] in rs[1..]; }
      }
    }
  }

  lemma {:induction false} SentInIs(sent: seq<Read>, m: Mode)
    ensures forall read :: read in SentIn(sent, m) <==> read in sent && ModeOfRead(read) == m
  {
    hide ModeOfRead;
    if sent != [] { SentInIs(sent[1..], m); }
  }

  lemma {:induction false} SentInAll(sent: seq<Read>)
    ensures |sent| == |SentIn(sent, WordsMode)| + |SentIn(sent, BitsMode)| + |SentIn(sent, SingleMode)|
                    + |SentIn(sent, RemarkMode)|
  {
    if sent != [] { SentInAll(sent[1..]); }
  }

  lemma ServesInMode(rs: seq<Request>, sent: seq<Read>, m: Mode)
    requires ServesAll(rs, sent)
    ensures ServesAll(OfMode(rs, m), SentIn(sent, m))
  {
    hide ModeOf, Number, Limit, Width;
    OfModeIs(rs, m);
    SentInIs(sent, m);
    var some, mine := OfMode(rs, m), SentIn(sent, m);
    forall k | 0 <= k < |mine| ensures Allowed(some, mine[k]) {
      assert mine[k] in sent;
      AllowedInMode(rs, mine[k], m);
    }
    forall r | r in some ensures exists k :: 0 <= k < |mine| && Serves(mine[k], r) {
      var k :| 0 <= k < |sent| && Serves(sent[k], r);
      assert sent[k] in mine;
    }
  }

  lemma AllowedInMode(rs: seq<Request>, read: Read, m: Mode)
    requires ModeOfRead(read) == m
    ensures Allowed(rs, read) <==> Allowed(OfMode(rs, m), read)
  {
    hide ModeOf, Number, Limit, Width, OfMode;
    OfModeIs(rs, m);
    if read.Joint? {
      forall p: nat ensures AskedFor(rs, read.family, m, p) <==> AskedFor(OfMode(rs, m), read.family, m, p) {}
    }
  }

  /** As many reads as if each mode were planned by itself. */
  function PlanByMode(rs: seq<Request>): nat {
    |PlanOf(OfMode(rs, WordsMode))| + |PlanOf(OfMode(rs, BitsMode))| + |PlanOf(OfMode(rs, SingleMode))|
    + |PlanOf(OfMode(rs, RemarkMode))|
  }

  lemma OneModeIsSeparated(rs: seq<Request>, m: Mode)
    ensures Separated(OfMode(rs, m))
  {
    hide ModeOf, Before, OfMode;
    OfModeIs(rs, m);
  }

  lemma ModeIsFewest(rs: seq<Request>, sent: seq<Read>, m: Mode)
    requires Numbered(rs) && ServesAll(rs, sent)
    ensures |PlanOf(OfMode(rs, m))| <= |SentIn(sent, m)|
  {
    hide ServesAll, Numbered, PlanOf, Separated;
    OfModeIs(rs, m);
    ServesInMode(rs, sent, m);
    OneModeIsSeparated(rs, m);
    SeparatedIsFewest(OfMode(rs, m), SentIn(sent, m));
  }

  /** The reads `sent` are allowed and serve the requests of the mode. */
  ghost predicate ServesMode(rs: seq<Request>, sent: seq<Read>, m: Mode) {
    && (forall k :: 0 <= k < |sent| ==> Allowed(rs, sent[k]))
    && (forall r :: r in rs && ModeOf(r.kind) == m ==> exists k :: 0 <= k < |sent| && Serves(sent[k], r))
  }

  lemma ModeReads(rs: seq<Request>, m: Mode) returns (sent: seq<Read>)
    ensures ServesMode(rs, sent, m) && |sent| == |PlanOf(OfMode(rs, m))|
  {
    hide Sound, Serves, Limit, ModeOf, Number, AllSegments, Buckets, ReadOf;
    var some := OfMode(rs, m);
    OfModeIs(rs, m);
    PlanIsPlanned(some);
    PlanServes(some, PlanOf(some));
    sent := ReadsOf(PlanOf(some));
    forall k | 0 <= k < |sent| ensures Allowed(rs, sent[k]) { MoreAllowed(some, rs, sent[k]); }
  }

  lemma MoreAllowed(some: seq<Request>, rs: seq<Request>, read: Read)
    requires Allowed(some, read) && forall r :: r in some ==> r in rs
    ensures Allowed(rs, read)
  {
    hide ModeOf, Number, Limit, Width;
    if read.Joint? {
      forall p: nat | read.first <= p < read.first + read.count ensures AskedFor(rs, read.family, read.mode, p) {
        assert AskedFor(some, read.family, read.mode, p);
      }
    }
  }

  lemma ServesBoth(rs: seq<Request>, a: seq<Read>, b: seq<Read>, m: Mode)
    requires (ServesMode(rs, a, m) && forall k :: 0 <= k < |b| ==> Allowed(rs, b[k]))
          || (ServesMode(rs, b, m) && forall k :: 0 <= k < |a| ==> Allowed(rs, a[k]))
    ensures ServesMode(rs, a + b, m)
  {
    hide Serves, Allowed, ModeOf;
    forall r | r in rs && ModeOf(r.kind) == m ensures exists k :: 0 <= k < |a + b| && Serves((a + b)[k], r) {
      if k :| 0 <= k < |a| && Serves(a[k], r) {
        assert (a + b)[k] == a[k];
      } else {
        var k :| 0 <= k < |b| && Serves(b[k], r);
        assert (a + b)[|a| + k] == b[k];
      }
    }
  }

  lemma PlanByModeServes(rs: seq<Request>) returns (sent: seq<Read>)
    ensures ServesAll(rs, sent) && |sent| == PlanByMode(rs)
  {
    hide Serves, Allowed, PlanOf, OfMode;
    var a := ModeReads(rs, WordsMode);
    var b := ModeReads(rs, BitsMode);
    var c := ModeReads(rs, SingleMode);
    var d := ModeReads(rs, RemarkMode);
    sent := a + b + (c + d);
    ServesBoth(rs, a, b, WordsMode);
    ServesBoth(rs, a, b, BitsMode);
    ServesBoth(rs, c, d, SingleMode);
    ServesBoth(rs, c, d, RemarkMode);
    ServesBoth(rs, a + b, c + d, WordsMode);
    ServesBoth(rs, a + b, c + d, BitsMode);
    ServesBoth(rs, a + b, c + d, SingleMode);
    ServesBoth(rs, a + b, c + d, RemarkMode);
    forall r | r in rs ensures exists k :: 0 <= k < |sent| && Serves(sent[k], r) { AnyMode(ModeOf(r.kind)); }
  }

  lemma AnyMode(m: Mode)
    ensures m in [WordsMode, BitsMode, SingleMode, RemarkMode]
  {
  }

  /**
   The fewest reads that serve the requests, over every choice: as many as if each mode were planned by itself. The plan
   has that many exactly when no choice has fewer.
   */
  lemma FewestReads(rs: seq<Request>)
    requires Numbered(rs)
    ensures NoFewer(rs, PlanByMode(rs)) && exists sent :: ServesAll(rs, sent) && |sent| == PlanByMode(rs)
    ensures PlanByMode(rs) <= |PlanOf(rs)|
    ensures NoFewer(rs, |PlanOf(rs)|) <==> |PlanOf(rs)| == PlanByMode(rs)
  {
    hide ServesAll, PlanOf, OfMode, SentIn, Numbered, Separated, WithinLimits;
    forall sent | ServesAll(rs, sent) ensures PlanByMode(rs) <= |sent| {
      SentInAll(sent);
      ModeIsFewest(rs, sent, WordsMode);
      ModeIsFewest(rs, sent, BitsMode);
      ModeIsFewest(rs, sent, SingleMode);
      ModeIsFewest(rs, sent, RemarkMode);
    }
    var best := PlanByModeServes(rs);
    PlanIsFewest(rs);
  }

  lemma RequestsAreNumbered(addresses: seq<string>)
    requires AllParse(addresses)
    ensures Numbered(Requests(addresses))
  {
    hide HelperAddress.Interpret, Device.Parse, KindOf, HelperAddress.Suits;
    var rs := Requests(addresses);
    forall i | 0 <= i < |rs| ensures rs[i].index == i { assert ParseRequest(addresses[i], i) == Ok(rs[i]); }
  }

  /** So it is for the plan of every list of addresses that parse. */
  lemma CompiledIsFewest(addresses: seq<string>)
    requires AllParse(addresses)
    ensures var rs := Requests(addresses);
            && PlanByMode(rs) <= |PlanOf(rs)|
            && (NoFewer(rs, |PlanOf(rs)|) <==> |PlanOf(rs)| == PlanByMode(rs))
            && (Separated(rs) ==> NoFewer(rs, |PlanOf(rs)|))
            && (WithinLimits(rs) ==> (Separated(rs) <==> NoFewer(rs, |PlanOf(rs)|)))
  {
    hide AllParse, Requests, PlanByMode, PlanOf, Separated, WithinLimits, NoFewer, Numbered;
    RequestsAreNumbered(addresses);
    FewestReads(Requests(addresses));
    PlanIsFewest(Requests(addresses));
  }

  // ---------------------------------------------------------------- a request in between

  function WordAt(index: nat, address: string, n: nat, k: Kind): Request {
    Request(index, address, Device.Address(Device.DM, n, Protocol.Bit), k, 0)
  }

  const First := WordAt(0, "DM0:U", 0, Merged(HelperAddress.Word(Protocol.U)))
  const Hex := WordAt(1, "DM1:H", 1, Single(HelperAddress.Word(Protocol.H)))
  const Second := WordAt(2, "DM1:U", 1, Merged(HelperAddress.Word(Protocol.U)))
  const Three := [First, Hex, Second]

  /** `DM0:U`, `DM1:H` and `DM1:U` are read one by one, although two reads would do. */
  lemma HexBetweenWords()
    ensures |PlanOf(Three)| == 3
    ensures ServesAll(Three, [Joint(Device.DM, WordsMode, 0, 2), Lone(Hex)])
  {
    ThreeSegments(First, Hex, Second);
    var sent := [Joint(Device.DM, WordsMode, 0, 2), Lone(Hex)];
    assert Three[0] == First && Three[1] == Hex && Three[2] == Second;
    assert Hex in Three;
    assert Limit(Device.DM, WordsMode) == 1000;
    forall p: nat | 0 <= p < 2 ensures AskedFor(Three, Device.DM, WordsMode, p) {
      assert if p == 0 then Number(First) <= p < End(First) else Number(Second) <= p < End(Second);
      assert First in Three && Second in Three;
    }
    assert Serves(sent[0], First) && Serves(sent[1], Hex) && Serves(sent[0], Second);
  }

  /** Three requests of one family, each of another mode than the one before, are three segments. */
  lemma ThreeSegments(a: Request, b: Request, c: Request)
    requires a.base.family == b.base.family == c.base.family && Before(a, b) && Before(b, c)
    requires ModeOf(a.kind) != ModeOf(b.kind) && ModeOf(b.kind) != ModeOf(c.kind)
    ensures |PlanOf([a, b, c])| == 3
  {
    hide Sorted, Buckets, Greedy, Before, ModeOf;
    ThreeInOne(a, b, c);
    ThreeSorted(a, b, c);
    OnlyBucket(Bucket(a.base.family, [a, b, c]));
    GreedyCounts([a, b, c]);
  }

  lemma GreedyCounts(rs: seq<Request>)
    requires |rs| == 3 && ModeOf(rs[0].kind) != ModeOf(rs[1].kind) && ModeOf(rs[1].kind) != ModeOf(rs[2].kind)
    ensures |Greedy(rs, 0)| == 3
  {
    hide ModeOf, MakeSegment, Number, Limit;
    assert Extend(rs, 0, 1, End(rs[0])).0 == 1;
    assert Extend(rs, 1, 2, End(rs[1])).0 == 2;
    assert Extend(rs, 2, 3, End(rs[2])).0 == 3;
    hide Extend;
    assert |Greedy(rs, 2)| == 1;
    assert |Greedy(rs, 1)| == 2;
  }

  lemma OnlyBucket(b: Bucket)
    ensures AllSegments([b]) == Greedy(Sorted(b.requests), 0)
  {
    hide Greedy;
    assert [b][1..] == [];
  }

  lemma ThreeInOne(a: Request, b: Request, c: Request)
    requires a.base.family == b.base.family == c.base.family
    ensures Buckets([a, b, c]) == [Bucket(a.base.family, [a, b, c])]
  {
    hide AddTo, Buckets;
    assert [] + [a] == [a] && [a] + [b] == [a, b] && [a, b] + [c] == [a, b, c];
    OpensBucket(a);
    AddsTo([a], b);
    BucketsSnoc([a], b);
    AddsTo([a, b], c);
    BucketsSnoc([a, b], c);
  }

  lemma OpensBucket(r: Request)
    ensures Buckets([r]) == [Bucket(r.base.family, [r])]
  {
    assert [r][..0] == [];
  }

  lemma AddsTo(rs: seq<Request>, r: Request)
    ensures AddTo([Bucket(r.base.family, rs)], r) == [Bucket(r.base.family, rs + [r])]
  {
  }

  lemma ThreeSorted(a: Request, b: Request, c: Request)
    requires Before(a, b) && Before(b, c)
    ensures Sorted([a, b, c]) == [a, b, c]
  {
    hide Before;
    SortsFirst(c, []);
    SortsFirst(b, [c]);
    SortsFirst(a, [b, c]);
    assert [b] + [c] == [b, c] && [a] + [b, c] == [a, b, c];
  }

  lemma SortsFirst(r: Request, rs: seq<Request>)
    requires Sorted(rs) == rs && (rs == [] || Before(r, rs[0]))
    ensures Sorted([r] + rs) == [r] + rs
  {
    hide Before;
    assert ([r] + rs)[1..] == rs;
  }
}
