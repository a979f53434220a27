/** What the segments of a plan are: a partition of the requests, within the limits, and as few as runs can be. */
module ReadPlanSegments {
  import opened Wrappers
  import opened ReadPlan
  import Protocol
  import Device
  import HelperAddress

  // ---------------------------------------------------------------- sorting and bucketing lose nothing

  ghost predicate InOrder(rs: seq<Request>) { forall i, j :: 0 <= i < j < |rs| ==> Before(rs[i], rs[j]) }

  predicate OneFamily(rs: seq<Request>, f: Device.Family) { forall i :: 0 <= i < |rs| ==> rs[i].base.family == f }

  lemma {:induction false} InsertKeeps(r: Request, rs: seq<Request>)
    requires InOrder(rs)
    ensures InOrder(Insert(r, rs)) && multiset(Insert(r, rs)) == multiset(rs) + multiset{r}
  {
    hide Number, Width;
    if rs == [] || Before(r, rs[0]) {
      assert forall j :: 1 <= j < |rs| ==> Before(rs[0], rs[j]);
    } else {
      InsertKeeps(r, rs[1..]);
      assert rs == [rs[0]] + rs[1..];
      var more := Insert(r, rs[1..]);
      forall k | 0 <= k < |more| ensures Before(rs[0], more[k]) {
        assert more[k] in multiset(more);
        assert more[k] == r || more[k] in rs[1..];
      }
    }
  }

  /** Sorting puts the same requests in order. */
  lemma {:induction false} SortedKeeps(rs: seq<Request>)
    ensures InOrder(Sorted(rs)) && multiset(Sorted(rs)) == multiset(rs)
  {
    if rs != [] {
      SortedKeeps(rs[1..]);
      InsertKeeps(rs[0], Sorted(rs[1..]));
      assert rs == [rs[0]] + rs[1..];
    }
  }

  lemma SortedFamily(rs: seq<Request>, f: Device.Family)
    requires OneFamily(rs, f)
    ensures OneFamily(Sorted(rs), f) && |Sorted(rs)| == |rs|
  {
    SortedKeeps(rs);
    var s := Sorted(rs);
    assert |multiset(s)| == |multiset(rs)|;
    forall i | 0 <= i < |s| ensures s[i].base.family == f {
      assert s[i] in multiset(s);
      assert s[i] in rs;
    }
  }

  function FlatBuckets(buckets: seq<Bucket>): seq<Request> {
    if buckets == [] then [] else buckets[0].requests + FlatBuckets(buckets[1..])
  }

  ghost predicate Families(buckets: seq<Bucket>) {
    forall i :: 0 <= i < |buckets| ==> OneFamily(buckets[i].requests, buckets[i].family)
  }

  lemma {:induction false} AddToKeeps(buckets: seq<Bucket>, r: Request)
    requires Families(buckets)
    ensures Families(AddTo(buckets, r))
    ensures multiset(FlatBuckets(AddTo(buckets, r))) == multiset(FlatBuckets(buckets)) + multiset{r}
  {
    if buckets == [] {
      assert FlatBuckets([Bucket(r.base.family, [r])]) == [r] + FlatBuckets([]);
    } else if buckets[0].family == r.base.family {
      var added := AddTo(buckets, r);
      assert added[1..] == buckets[1..];
      assert forall i :: 1 <= i < |added| ==> added[i] == buckets[i];
    } else {
      AddToKeeps(buckets[1..], r);
      var added := AddTo(buckets, r);
      assert added[1..] == AddTo(buckets[1..], r);
      assert forall i :: 1 <= i < |added| ==> added[i] == added[1..][i - 1];
    }
  }

  lemma NoBuckets()
    ensures Families([]) && FlatBuckets([]) == []
  {
  }

  /** The buckets hold the requests, each with those of its family. */
  lemma {:induction false} BucketsKeep(rs: seq<Request>)
    ensures Families(Buckets(rs)) && multiset(FlatBuckets(Buckets(rs))) == multiset(rs)
  {
    hide AddTo, Families, FlatBuckets;
    if rs == [] {
      NoBuckets();
    } else {
      var n := |rs| - 1;
      BucketsKeep(rs[..n]);
      AddToKeeps(Buckets(rs[..n]), rs[n]);
      assert rs == rs[..n] + [rs[n]];
    }
  }

  // ---------------------------------------------------------------- segments partition the requests

  function Flat(segments: seq<Segment>): seq<Request> {
    if segments == [] then [] else segments[0].requests + Flat(segments[1..])
  }

  lemma {:induction false} FlatConcat(a: seq<Segment>, b: seq<Segment>)
    ensures Flat(a + b) == Flat(a) + Flat(b)
  {
    if a == [] {
      assert a + b == b;
    } else {
      assert (a + b)[1..] == a[1..] + b;
      FlatConcat(a[1..], b);
    }
  }

  /** The segments of a sorted bucket, one after the other, are the bucket. */
  lemma {:induction false} GreedyPartitions(rs: seq<Request>, i: nat)
    requires i <= |rs|
    ensures Flat(Greedy(rs, i)) == rs[i..]
    decreases |rs| - i
  {
    hide Extend;
    if i < |rs| {
      var (j, end) := Extend(rs, i, i + 1, End(rs[i]));
      GreedyPartitions(rs, j);
      assert rs[i..] == rs[i..j] + rs[j..];
    }
  }

  lemma {:induction false} AllSegmentsPartition(buckets: seq<Bucket>)
    ensures multiset(Flat(AllSegments(buckets))) == multiset(FlatBuckets(buckets))
  {
    if buckets != [] {
      var s := Sorted(buckets[0].requests);
      AllSegmentsPartition(buckets[1..]);
      GreedyPartitions(s, 0);
      assert s[0..] == s;
      SortedKeeps(buckets[0].requests);
      FlatConcat(Greedy(s, 0), AllSegments(buckets[1..]));
    }
  }

  /** Every request of the plan is in exactly one segment, exactly once. */
  lemma PlanPartitions(rs: seq<Request>, segments: seq<Segment>)
    requires segments == AllSegments(Buckets(rs))
    ensures multiset(Flat(segments)) == multiset(rs)
  {
    BucketsKeep(rs);
    AllSegmentsPartition(Buckets(rs));
  }

  // ---------------------------------------------------------------- segments are within their bounds

  /** What parsing guarantees of the kind of a request. */
  predicate Proper(r: Request) {
    var f := r.base.family;
    match r.kind
    case DirectBits => Device.DirectBit(f)
    case Merged(d) =>
      && Device.OrdinaryWord(f)
      && (match d
          case Word(format) => format.U? || format.S? || ((format.D? || format.L?) && !Device.Native32(f))
          case Float => !Device.Native32(f)
          case BitInWord => r.bit < 16
          case _ => false)
    case _ => true
  }

  lemma ParsedIsProper(address: string, index: nat)
    requires ParseRequest(address, index).Ok?
    ensures Proper(ParseRequest(address, index).value)
  {
    hide Device.Parse, HelperAddress.Interpret, HelperAddress.Suits, KindOf, Proper;
    InterpretedDtype(address);
    var d := HelperAddress.Interpret(address).value.1;
    KindIsProper(ParseRequest(address, index).value, d);
  }

  lemma KindIsProper(r: Request, d: Dtype)
    requires r.kind == KindOf(r.base.family, d) && HelperAddress.Suits(d, r.base.family)
    requires d != HelperAddress.Word(Protocol.Bit) && (d.BitInWord? ==> r.bit < 16)
    ensures Proper(r)
  {
    hide Device.OrdinaryWord, Device.Native32, Device.DirectBit, Device.HasComments, Device.Float32Eligible;
    FloatIsNotNative(r.base.family);
  }

  lemma FloatIsNotNative(f: Device.Family)
    ensures Device.Float32Eligible(f) ==> !Device.Native32(f)
  {
  }

  lemma InterpretedDtype(address: string)
    requires HelperAddress.Interpret(address).Ok?
    ensures HelperAddress.Interpret(address).value.1 != HelperAddress.Word(Protocol.Bit)
  {
    hide HelperAddress.NormalizeDtype, Device.Parse;
  }

  /** One read covers the request. */
  predicate Covers(s: Segment, r: Request) {
    && s.first <= Number(r) && End(r) <= s.first + s.count
    && ModeOf(r.kind) == s.mode && r.base.family == s.start.family
  }

  /** A segment covers its requests and nothing else, and its count is within the limit of its family and mode. */
  ghost predicate Sound(s: Segment) {
    && s.requests != []
    && s.start == Device.Address(s.requests[0].base.family, s.requests[0].base.number, Protocol.Bit)
    && s.first == Number(s.requests[0])
    && (forall k :: 0 <= k < |s.requests| ==> Covers(s, s.requests[k]))
    && (forall p: nat :: s.first <= p < s.first + s.count ==> Asked(s.requests, p))
    && (!Mergeable(s.mode) ==> |s.requests| == 1)
    && 1 <= s.count <= Limit(s.start.family, s.mode)
  }

  /** Some request asks for position `p`. */
  ghost predicate Asked(rs: seq<Request>, p: nat) { exists k :: 0 <= k < |rs| && Number(rs[k]) <= p < End(rs[k]) }

  /** The part `rs[i..j]`, covering up to `end`, is one read. */
  ghost predicate Joined(rs: seq<Request>, i: nat, j: nat, end: nat, f: Device.Family) {
    && i < j <= |rs| && Number(rs[i]) < end
    && end - Number(rs[i]) <= Limit(f, ModeOf(rs[i].kind))
    && (j > i + 1 ==> Mergeable(ModeOf(rs[i].kind)))
    && (forall k :: i <= k < j ==>
          && Number(rs[i]) <= Number(rs[k]) && End(rs[k]) <= end
          && ModeOf(rs[k].kind) == ModeOf(rs[i].kind))
    && (forall p: nat :: Number(rs[i]) <= p < end ==> AskedIn(rs, i, j, p))
  }

  ghost predicate AskedIn(rs: seq<Request>, i: nat, j: nat, p: nat)
    requires j <= |rs|
  {
    exists k :: i <= k < j && Number(rs[k]) <= p < End(rs[k])
  }

  lemma JoinOne(rs: seq<Request>, i: nat, j: nat, end: nat, f: Device.Family)
    requires OneFamily(rs, f) && Joined(rs, i, j, end, f) && j < |rs| && CanAppend(rs[i], end, rs[j])
    ensures Joined(rs, i, j + 1, Max(end, End(rs[j])), f)
  {
    hide ModeOf, Number, Width, Limit;
    var next := j + 1;
    forall p: nat | Number(rs[i]) <= p < Max(end, End(rs[j])) ensures AskedIn(rs, i, next, p) {
      if p < end {
        assert AskedIn(rs, i, j, p);
      } else {
        assert Number(rs[j]) <= p < End(rs[j]);
      }
    }
  }

  lemma {:induction false} ExtendJoins(rs: seq<Request>, i: nat, j: nat, end: nat, f: Device.Family)
    requires i < j <= |rs| && OneFamily(rs, f) && Joined(rs, i, j, end, f)
    ensures var (stop, last) := Extend(rs, i, j, end); Joined(rs, i, stop, last, f)
    decreases |rs| - j
  {
    hide Joined, CanAppend;
    if j < |rs| && CanAppend(rs[i], end, rs[j]) {
      JoinOne(rs, i, j, end, f);
      ExtendJoins(rs, i, j + 1, Max(end, End(rs[j])), f);
    }
  }

  lemma JoinedIsSound(rs: seq<Request>, i: nat, j: nat, end: nat, f: Device.Family)
    requires OneFamily(rs, f) && Joined(rs, i, j, end, f)
    ensures Sound(MakeSegment(rs[i], end, rs[i..j]))
  {
    hide ModeOf, Number, Width, Limit;
    var s := MakeSegment(rs[i], end, rs[i..j]);
    forall p: nat | s.first <= p < s.first + s.count ensures Asked(s.requests, p) {
      assert AskedIn(rs, i, j, p);
      var k :| i <= k < j && Number(rs[k]) <= p < End(rs[k]);
      assert s.requests[k - i] == rs[k];
    }
    assert forall k :: 0 <= k < |s.requests| ==> s.requests[k] == rs[i + k];
  }

  lemma {:induction false} GreedyIsSound(rs: seq<Request>, i: nat, f: Device.Family)
    requires i <= |rs| && OneFamily(rs, f)
    ensures forall s :: s in Greedy(rs, i) ==> Sound(s)
    decreases |rs| - i
  {
    hide Extend, Joined, Sound, MakeSegment;
    if i < |rs| {
      assert Joined(rs, i, i + 1, End(rs[i]), f) by { Alone(rs, i, f); }
      ExtendJoins(rs, i, i + 1, End(rs[i]), f);
      var (j, end) := Extend(rs, i, i + 1, End(rs[i]));
      JoinedIsSound(rs, i, j, end, f);
      GreedyIsSound(rs, j, f);
    }
  }

  lemma Alone(rs: seq<Request>, i: nat, f: Device.Family)
    requires i < |rs|
    ensures Joined(rs, i, i + 1, End(rs[i]), f)
  {
    var j := i + 1;
    forall p: nat | Number(rs[i]) <= p < End(rs[i]) ensures AskedIn(rs, i, j, p) { assert i <= i < j; }
  }

  lemma {:induction false} AllSegmentsSound(buckets: seq<Bucket>)
    requires Families(buckets)
    ensures forall s :: s in AllSegments(buckets) ==> Sound(s)
  {
    hide Sound, OneFamily;
    if buckets != [] {
      assert Families(buckets[1..]);
      AllSegmentsSound(buckets[1..]);
      SortedFamily(buckets[0].requests, buckets[0].family);
      GreedyIsSound(Sorted(buckets[0].requests), 0, buckets[0].family);
    }
  }

  /** The plan's counted reads pass the per-family check made when a consecutive read command is built. */
  lemma CountIsAllowed(s: Segment)
    requires Sound(s) && Proper(s.requests[0]) && Mergeable(s.mode)
    ensures Device.CountAllowed(s.start.family, if s.mode == BitsMode then Protocol.Bit else Protocol.U, s.count)
  {
    assert Covers(s, s.requests[0]);
  }

  /** Every segment of a plan is sound, whatever the addresses. */
  lemma PlanIsSound(rs: seq<Request>)
    ensures forall s :: s in AllSegments(Buckets(rs)) ==> Sound(s)
  {
    hide Sound;
    BucketsKeep(rs);
    AllSegmentsSound(Buckets(rs));
  }

  // ---------------------------------------------------------------- no partition uses fewer segments

  /** The furthest end of `rs[i..k]`. */
  function MaxEnd(rs: seq<Request>, i: nat, k: nat): nat
    requires i < k <= |rs|
  {
    if k == i + 1 then End(rs[i]) else Max(MaxEnd(rs, i, k - 1), End(rs[k - 1]))
  }

  lemma {:induction false} EndWithin(rs: seq<Request>, i: nat, k: nat, j: nat)
    requires i <= j < k <= |rs|
    ensures End(rs[j]) <= MaxEnd(rs, i, k)
  {
    if j < k - 1 { EndWithin(rs, i, k - 1, j); }
  }

  lemma {:induction false} FurthestEnd(rs: seq<Request>, i: nat, k: nat) returns (j: nat)
    requires i < k <= |rs|
    ensures i <= j < k && End(rs[j]) == MaxEnd(rs, i, k)
  {
    if k == i + 1 || End(rs[k - 1]) >= MaxEnd(rs, i, k - 1) {
      j := k - 1;
    } else {
      j := FurthestEnd(rs, i, k - 1);
    }
  }

  /** `rs[i..j]` may be read together: each request may be appended to those before it. */
  ghost predicate Run(rs: seq<Request>, i: nat, j: nat) {
    i < j <= |rs| && forall k :: i < k < j ==> CanAppend(rs[i], MaxEnd(rs, i, k), rs[k])
  }

  /** The greedy segment is a run, and no run from its start is longer. */
  lemma {:induction false} ExtendIsLongest(rs: seq<Request>, i: nat, j: nat, b: nat)
    requires Run(rs, i, j)
    ensures var stop := Extend(rs, i, j, MaxEnd(rs, i, j)).0;
            Run(rs, i, stop) && (Run(rs, i, b) ==> b <= stop)
    decreases |rs| - j
  {
    hide CanAppend, Max, End;
    if j < |rs| && CanAppend(rs[i], MaxEnd(rs, i, j), rs[j]) {
      ExtendIsLongest(rs, i, j + 1, b);
    }
  }

  /** Where the greedy segments begin, and the end of the bucket. */
  function GreedyCuts(rs: seq<Request>, i: nat): (cuts: seq<nat>)
    requires i <= |rs|
    ensures cuts != [] && cuts[0] == i && |cuts| == |Greedy(rs, i)| + 1
    decreases |rs| - i
  {
    if i == |rs| then [i] else [i] + GreedyCuts(rs, Extend(rs, i, i + 1, End(rs[i])).0)
  }

  /** A partition of the bucket into runs, by its cut positions. */
  ghost predicate Partition(rs: seq<Request>, cuts: seq<nat>) {
    && cuts != [] && cuts[0] == 0 && cuts[|cuts| - 1] == |rs|
    && forall k :: 0 <= k < |cuts| - 1 ==> Run(rs, cuts[k], cuts[k + 1])
  }

  /**
   The greedy walk only cuts inside a run where the start moves on: at equal starts the wider request comes first, so
   the narrower one fits. This needs the wider-first order of the sort.
   */
  lemma CutMovesOn(rs: seq<Request>, i: nat, m: nat, f: Device.Family)
    requires InOrder(rs) && OneFamily(rs, f) && i < m < |rs| && Run(rs, i, m)
    requires Mergeable(ModeOf(rs[m].kind)) && ModeOf(rs[m - 1].kind) == ModeOf(rs[m].kind)
    requires !CanAppend(rs[i], MaxEnd(rs, i, m), rs[m])
    ensures Number(rs[m - 1]) < Number(rs[m])
  {
    hide ModeOf, Number, InOrder, OneFamily, Run, MaxEnd;
    OrderAt(rs, m - 1, m);
    OrderAt(rs, i, m);
    FamilyAt(rs, f, m - 1);
    FamilyAt(rs, f, m);
    if m - 1 > i { RunAt(rs, i, m, m - 1); }
    EndWithin(rs, i, m, m - 1);
  }

  /** From such a cut on, the rest of a run is itself a run. */
  lemma RestIsRun(rs: seq<Request>, a: nat, m: nat, b: nat, f: Device.Family)
    requires InOrder(rs) && OneFamily(rs, f) && a < m < b && Run(rs, a, b) && Number(rs[m - 1]) < Number(rs[m])
    ensures Run(rs, m, b)
  {
    forall k | m < k < b ensures CanAppend(rs[m], MaxEnd(rs, m, k), rs[k]) {
      RestAppends(rs, a, m, k, f);
    }
  }

  lemma RunAt(rs: seq<Request>, i: nat, j: nat, k: nat)
    requires Run(rs, i, j) && i < k < j
    ensures CanAppend(rs[i], MaxEnd(rs, i, k), rs[k])
  {
    hide CanAppend, MaxEnd;
  }

  lemma OrderAt(rs: seq<Request>, i: nat, j: nat)
    requires InOrder(rs) && i < j < |rs|
    ensures Number(rs[i]) <= Number(rs[j])
    ensures Number(rs[i]) == Number(rs[j]) ==> Width(rs[i].kind) >= Width(rs[j].kind)
  {
    hide Number, Width;
    assert Before(rs[i], rs[j]);
  }

  lemma FamilyAt(rs: seq<Request>, f: Device.Family, i: nat)
    requires OneFamily(rs, f) && i < |rs|
    ensures rs[i].base.family == f
  {
  }

  lemma RestAppends(rs: seq<Request>, a: nat, m: nat, k: nat, f: Device.Family)
    requires InOrder(rs) && OneFamily(rs, f) && a < m < k < |rs| && Run(rs, a, k + 1)
    requires Number(rs[m - 1]) < Number(rs[m])
    ensures CanAppend(rs[m], MaxEnd(rs, m, k), rs[k])
  {
    hide ModeOf, Limit, Number, Run, InOrder, OneFamily, MaxEnd;
    RunAt(rs, a, k + 1, m);
    RunAt(rs, a, k + 1, k);
    OrderAt(rs, m, k);
    FamilyAt(rs, f, m);
    FamilyAt(rs, f, k);
    var j := FurthestEnd(rs, a, k);
    EndWithin(rs, m, k, m);
    if j < m {
      if j < m - 1 { OrderAt(rs, j, m - 1); }
      assert End(rs[j]) <= Number(rs[m - 1]) + 2 <= End(rs[m]);
    } else {
      EndWithin(rs, m, k, j);
    }
  }

  /** The greedy cut positions are never behind those of another partition. */
  lemma {:induction false} StaysAhead(rs: seq<Request>, cuts: seq<nat>, k: nat, f: Device.Family)
    requires InOrder(rs) && OneFamily(rs, f) && Partition(rs, cuts)
    requires k < |cuts| && k < |GreedyCuts(rs, 0)|
    ensures cuts[k] <= GreedyCuts(rs, 0)[k]
  {
    hide InOrder, OneFamily, CanAppend, Run, MaxEnd, Extend, Number, End;
    if k > 0 {
      StaysAhead(rs, cuts, k - 1, f);
      var g := GreedyCuts(rs, 0);
      GreedyCutAt(rs, 0, k - 1);
      var i := g[k - 1];
      assert Run(rs, cuts[k - 1], cuts[k]);
      LoneRun(rs, i);
      ExtendIsLongest(rs, i, i + 1, cuts[k]);
      if i < cuts[k] && cuts[k - 1] < i {
        GreedyCutBreaks(rs, k - 1, cuts[k - 1], cuts[k], f);
        RestIsRun(rs, cuts[k - 1], i, cuts[k], f);
      }
    }
  }

  /** Each greedy cut is where the segment begun at the cut before it extends to. */
  lemma {:induction false} GreedyCutAt(rs: seq<Request>, i: nat, k: nat)
    requires i <= |rs| && k + 1 < |GreedyCuts(rs, i)|
    ensures var g := GreedyCuts(rs, i); g[k] < |rs| && g[k + 1] == Extend(rs, g[k], g[k] + 1, End(rs[g[k]])).0
    decreases k
  {
    hide Extend;
    if k > 0 { GreedyCutAt(rs, Extend(rs, i, i + 1, End(rs[i])).0, k - 1); }
  }

  /** A greedy cut inside a run of another partition is one where the start moves on. */
  lemma GreedyCutBreaks(rs: seq<Request>, k: nat, a: nat, b: nat, f: Device.Family)
    requires InOrder(rs) && OneFamily(rs, f) && k < |GreedyCuts(rs, 0)|
    requires a < GreedyCuts(rs, 0)[k] < b && Run(rs, a, b)
    ensures Number(rs[GreedyCuts(rs, 0)[k] - 1]) < Number(rs[GreedyCuts(rs, 0)[k]])
  {
    hide InOrder, OneFamily, Number, Run, CanAppend, Extend, MaxEnd;
    var g := GreedyCuts(rs, 0);
    GreedyCutAt(rs, 0, k - 1);
    var i, m := g[k - 1], g[k];
    RunBounds(rs, a, b);
    GreedyStops(rs, i, m);
    SameMode(rs, a, m, b);
    CutMovesOn(rs, i, m, f);
  }

  /** The greedy segment is a run that the next request cannot join. */
  lemma GreedyStops(rs: seq<Request>, i: nat, m: nat)
    requires i < |rs| && m == Extend(rs, i, i + 1, End(rs[i])).0
    ensures Run(rs, i, m) && (m < |rs| ==> !CanAppend(rs[i], MaxEnd(rs, i, m), rs[m]))
  {
    hide CanAppend, Extend, End;
    LoneRun(rs, i);
    ExtendIsLongest(rs, i, i + 1, m);
    ExtendIsLongest(rs, i, i + 1, m + 1);
  }

  lemma RunBounds(rs: seq<Request>, i: nat, j: nat)
    requires Run(rs, i, j)
    ensures i < j <= |rs|
  {
  }

  lemma LoneRun(rs: seq<Request>, i: nat)
    requires i < |rs|
    ensures Run(rs, i, i + 1) && MaxEnd(rs, i, i + 1) == End(rs[i])
  {
  }

  lemma SameMode(rs: seq<Request>, a: nat, m: nat, b: nat)
    requires Run(rs, a, b) && a < m < b
    ensures Mergeable(ModeOf(rs[m].kind)) && ModeOf(rs[m - 1].kind) == ModeOf(rs[m].kind)
  {
    hide ModeOf, Number, Width, Limit, Run, MaxEnd;
    RunAt(rs, a, b, m);
    if m - 1 > a { RunAt(rs, a, b, m - 1); }
  }

  /** No partition of a sorted bucket into runs has fewer parts than the greedy one, which is such a partition. */
  lemma GreedyIsMinimal(bucket: seq<Request>, cuts: seq<nat>, f: Device.Family)
    requires OneFamily(bucket, f) && Partition(Sorted(bucket), cuts)
    ensures |Greedy(Sorted(bucket), 0)| <= |cuts| - 1
    ensures Partition(Sorted(bucket), GreedyCuts(Sorted(bucket), 0))
  {
    hide InOrder, OneFamily, CanAppend, Sorted;
    var rs := Sorted(bucket);
    SortedKeeps(bucket);
    SortedFamily(bucket, f);
    var g := GreedyCuts(rs, 0);
    GreedyPartition(rs);
    if |cuts| < |g| {
      var k := |cuts| - 1;
      StaysAhead(rs, cuts, k, f);
      GreedyCutAt(rs, 0, k);
    }
  }

  lemma {:induction false} LastCut(rs: seq<Request>, i: nat)
    requires i <= |rs|
    ensures GreedyCuts(rs, i)[|GreedyCuts(rs, i)| - 1] == |rs|
    decreases |rs| - i
  {
    hide Extend;
    if i < |rs| { LastCut(rs, Extend(rs, i, i + 1, End(rs[i])).0); }
  }

  lemma GreedyPartition(rs: seq<Request>)
    ensures Partition(rs, GreedyCuts(rs, 0))
  {
    var g := GreedyCuts(rs, 0);
    LastCut(rs, 0);
    forall k | 0 <= k < |g| - 1 ensures Run(rs, g[k], g[k + 1]) {
      GreedyCutAt(rs, 0, k);
      GreedyStops(rs, g[k], g[k + 1]);
    }
  }
}
