/**
 Reads, however requests are grouped: a read is of one request alone, or of consecutive positions that are all asked
 for, within the limit of their family and mode. Requests that no read serves together bound the number of reads from
 below; the first requests of the segments of a plan are such, unless sorting put another mode between two that touch.
 */
module ReadPlanReads {
  import opened ReadPlan
  import opened ReadPlanSegments
  import Device

  // ---------------------------------------------------------------- reads, however grouped

  datatype Read = Lone(request: Request) | Joint(family: Device.Family, mode: Mode, first: nat, count: nat)

  predicate Serves(read: Read, r: Request) {
    match read
    case Lone(q) => q == r
    case Joint(f, m, first, count) =>
      r.base.family == f && ModeOf(r.kind) == m && first <= Number(r) && End(r) <= first + count
  }

  /** Some request of the family and mode asks for the position. */
  ghost predicate AskedFor(rs: seq<Request>, f: Device.Family, m: Mode, p: nat) {
    exists r :: r in rs && r.base.family == f && ModeOf(r.kind) == m && Number(r) <= p < End(r)
  }

  /** One request of the list alone, or consecutive positions that are all asked for, within the limit. */
  ghost predicate Allowed(rs: seq<Request>, read: Read) {
    match read
    case Lone(r) => r in rs
    case Joint(f, m, first, count) =>
      && Mergeable(m) && count <= Limit(f, m)
      && forall p: nat :: first <= p < first + count ==> AskedFor(rs, f, m, p)
  }

  ghost predicate ServesAll(rs: seq<Request>, sent: seq<Read>) {
    && (forall k :: 0 <= k < |sent| ==> Allowed(rs, sent[k]))
    && (forall r :: r in rs ==> exists k :: 0 <= k < |sent| && Serves(sent[k], r))
  }

  predicate Numbered(rs: seq<Request>) { forall i, j :: 0 <= i < j < |rs| ==> rs[i].index != rs[j].index }

  function PlanOf(rs: seq<Request>): seq<Segment> { AllSegments(Buckets(rs)) }

  /** `c` has another mode and sorts between `a` and `b`. */
  predicate Splits(a: Request, c: Request, b: Request) {
    && a.base.family == b.base.family == c.base.family
    && Mergeable(ModeOf(a.kind)) && ModeOf(a.kind) == ModeOf(b.kind) != ModeOf(c.kind)
    && Before(a, c) && Before(c, b)
  }

  /** Requests with one of another mode between them do not touch. */
  ghost predicate Separated(rs: seq<Request>) {
    forall a, b, c :: a in rs && b in rs && c in rs && Splits(a, c, b) ==> End(a) < Number(b)
  }

  // ---------------------------------------------------------------- requests that no read serves together

  ghost predicate Apart(rs: seq<Request>, a: Request, b: Request) {
    forall read :: Allowed(rs, read) && Serves(read, a) ==> !Serves(read, b)
  }

  /** As many reads are needed as there are requests pairwise apart. */
  lemma {:induction false} AtLeastApart(rs: seq<Request>, apart: seq<Request>, sent: seq<Read>) returns (used: set<nat>)
    requires ServesAll(rs, sent) && (forall r :: r in apart ==> r in rs)
    requires forall i, j :: 0 <= i < j < |apart| ==> Apart(rs, apart[i], apart[j])
    ensures |used| == |apart| <= |sent|
    ensures forall k :: k in used ==> k < |sent| && exists r :: r in apart && Serves(sent[k], r)
  {
    hide Serves, Allowed;
    used := {};
    if apart != [] {
      var n := |apart| - 1;
      var earlier := AtLeastApart(rs, apart[..n], sent);
      assert apart[n] in apart && apart[n] in rs;
      var k :| 0 <= k < |sent| && Serves(sent[k], apart[n]);
      forall i | 0 <= i < n ensures !Serves(sent[k], apart[i]) { assert Apart(rs, apart[i], apart[n]); }
      assert k !in earlier;
      used := earlier + {k};
    }
    Below(used, |sent|);
  }

  lemma {:induction false} Below(s: set<nat>, n: nat)
    requires forall k :: k in s ==> k < n
    ensures |s| <= n
  {
    if n > 0 {
      Below(s - {n - 1}, n - 1);
      if n - 1 in s { assert s == (s - {n - 1}) + {n - 1}; }
    } else {
      assert s == {};
    }
  }

  // ---------------------------------------------------------------- the first requests of greedy segments

  /** `ss` are the requests of one family, sorted. */
  ghost predicate Bucketed(rs: seq<Request>, ss: seq<Request>, f: Device.Family) {
    && InOrder(ss) && OneFamily(ss, f)
    && (forall r :: r in ss <==> r in rs && r.base.family == f)
    && (forall i, j :: 0 <= i < j < |ss| ==> ss[i] != ss[j])
  }

  lemma SeparatedAt(rs: seq<Request>, ss: seq<Request>, f: Device.Family, i: nat, j: nat, k: nat)
    requires Bucketed(rs, ss, f) && Separated(rs) && i < j < k < |ss|
    requires Mergeable(ModeOf(ss[i].kind)) && ModeOf(ss[i].kind) == ModeOf(ss[k].kind) != ModeOf(ss[j].kind)
    ensures End(ss[i]) < Number(ss[k])
  {
    hide ModeOf, Number, Before;
    assert ss[i] in rs && ss[j] in rs && ss[k] in rs;
    assert Splits(ss[i], ss[j], ss[k]);
  }

  lemma RunMode(ss: seq<Request>, i: nat, j: nat, k: nat)
    requires Run(ss, i, j) && i <= k < j
    ensures ModeOf(ss[k].kind) == ModeOf(ss[i].kind) && (i < k ==> Mergeable(ModeOf(ss[i].kind)))
  {
    hide ModeOf, Run, MaxEnd;
    if i < k { RunAt(ss, i, j, k); }
  }

  /** Before a cut ends a run that the request at the cut cannot join. */
  lemma CutEndsRun(ss: seq<Request>, y: nat) returns (i: nat)
    requires y + 1 < |GreedyCuts(ss, 0)| && 0 < GreedyCuts(ss, 0)[y] < |ss|
    ensures var b := GreedyCuts(ss, 0)[y]; Run(ss, i, b) && !CanAppend(ss[i], MaxEnd(ss, i, b), ss[b])
  {
    hide Run, CanAppend, Extend, MaxEnd;
    GreedyCutAt(ss, 0, y - 1);
    i := GreedyCuts(ss, 0)[y - 1];
    GreedyStops(ss, i, GreedyCuts(ss, 0)[y]);
  }

  /** A segment begins behind every earlier request of its mode. */
  lemma CutStarts(rs: seq<Request>, ss: seq<Request>, f: Device.Family, y: nat, q: nat)
    requires Bucketed(rs, ss, f) && Separated(rs) && y + 1 < |GreedyCuts(ss, 0)|
    requires q < GreedyCuts(ss, 0)[y] < |ss|
    requires Mergeable(ModeOf(ss[q].kind)) && ModeOf(ss[q].kind) == ModeOf(ss[GreedyCuts(ss, 0)[y]].kind)
    ensures Number(ss[q]) < Number(ss[GreedyCuts(ss, 0)[y]])
  {
    hide ModeOf, Number, Run, CanAppend, MaxEnd, Separated, InOrder, OneFamily, GreedyCuts;
    var b := GreedyCuts(ss, 0)[y];
    if ModeOf(ss[b - 1].kind) == ModeOf(ss[b].kind) {
      var i := CutEndsRun(ss, y);
      RunBounds(ss, i, b);
      CutMovesOn(ss, i, b, f);
      if q < b - 1 { OrderAt(ss, q, b - 1); }
    } else {
      SeparatedAt(rs, ss, f, q, b - 1, b);
    }
  }

  /** Nobody asks for a position that earlier requests do not reach and later ones begin behind. */
  lemma Unasked(rs: seq<Request>, ss: seq<Request>, f: Device.Family, m: Mode, p: nat, c: nat)
    requires Bucketed(rs, ss, f) && c < |ss| && p < Number(ss[c])
    requires forall q :: 0 <= q < c && ModeOf(ss[q].kind) == m ==> End(ss[q]) <= p
    ensures !AskedFor(rs, f, m, p)
  {
    hide ModeOf, Number, Width;
    forall q | 0 <= q < |ss| && ModeOf(ss[q].kind) == m ensures !(Number(ss[q]) <= p < End(ss[q])) {
      if c < q { OrderAt(ss, c, q); }
    }
  }

  /** No read serves two requests with an unasked position between them. */
  lemma GapApart(rs: seq<Request>, a: Request, b: Request, p: nat)
    requires a != b && Number(a) <= p < End(b) && !AskedFor(rs, a.base.family, ModeOf(a.kind), p)
    ensures Apart(rs, a, b)
  {
    hide ModeOf, Number, AskedFor, Width;
  }

  /** The first requests of two greedy segments are apart. */
  lemma CutsApart(rs: seq<Request>, ss: seq<Request>, f: Device.Family, x: nat, y: nat)
    requires Bucketed(rs, ss, f) && Separated(rs) && x < y && y + 1 < |GreedyCuts(ss, 0)|
    requires GreedyCuts(ss, 0)[x] < GreedyCuts(ss, 0)[x + 1] <= GreedyCuts(ss, 0)[y] < |ss|
    ensures Apart(rs, ss[GreedyCuts(ss, 0)[x]], ss[GreedyCuts(ss, 0)[y]])
  {
    hide ModeOf, Number, Run, CanAppend, Extend, MaxEnd, Separated, Width;
    var g := GreedyCuts(ss, 0);
    var a, n, b := g[x], g[x + 1], g[y];
    GreedyCutAt(ss, 0, x);
    GreedyStops(ss, a, n);
    if ModeOf(ss[a].kind) != ModeOf(ss[b].kind) || !Mergeable(ModeOf(ss[a].kind)) {
      DifferentModes(rs, ss[a], ss[b]);
    } else if ModeOf(ss[n].kind) != ModeOf(ss[a].kind) {
      SplitApart(rs, ss, f, a, n, b);
    } else if Number(ss[n]) > MaxEnd(ss, a, n) {
      GapAfterRun(rs, ss, f, x, b);
    } else {
      LimitApart(rs, ss, f, x, y);
    }
  }

  lemma DifferentModes(rs: seq<Request>, a: Request, b: Request)
    requires a != b && (ModeOf(a.kind) != ModeOf(b.kind) || !Mergeable(ModeOf(a.kind)))
    ensures Apart(rs, a, b)
  {
    hide ModeOf, Number, AskedFor;
  }

  /** The segment from `a` on ended because `n` has another mode. */
  lemma SplitApart(rs: seq<Request>, ss: seq<Request>, f: Device.Family, a: nat, n: nat, b: nat)
    requires Bucketed(rs, ss, f) && Separated(rs) && a < n < b < |ss|
    requires Mergeable(ModeOf(ss[a].kind)) && ModeOf(ss[a].kind) == ModeOf(ss[b].kind) != ModeOf(ss[n].kind)
    ensures Apart(rs, ss[a], ss[b])
  {
    hide ModeOf, Number, Separated, Width;
    var m := ModeOf(ss[a].kind);
    var c := NextOfMode(ss, m, n, b);
    forall q | 0 <= q < c && ModeOf(ss[q].kind) == m ensures End(ss[q]) < Number(ss[c]) {
      assert q < n;
      SeparatedAt(rs, ss, f, q, n, c);
    }
    Unasked(rs, ss, f, m, Number(ss[c]) - 1, c);
    if c < b { OrderAt(ss, c, b); }
    GapApart(rs, ss[a], ss[b], Number(ss[c]) - 1);
  }

  lemma {:induction false} NextOfMode(ss: seq<Request>, m: Mode, n: nat, b: nat) returns (c: nat)
    requires n <= b < |ss| && ModeOf(ss[b].kind) == m
    ensures n <= c <= b && ModeOf(ss[c].kind) == m && forall q :: n <= q < c ==> ModeOf(ss[q].kind) != m
    decreases b - n
  {
    hide ModeOf;
    if ModeOf(ss[n].kind) == m { c := n; } else { c := NextOfMode(ss, m, n + 1, b); }
  }

  /** The segment ended because the next request of its mode begins behind its end. */
  lemma GapAfterRun(rs: seq<Request>, ss: seq<Request>, f: Device.Family, x: nat, b: nat)
    requires Bucketed(rs, ss, f) && Separated(rs) && x + 1 < |GreedyCuts(ss, 0)|
    requires GreedyCuts(ss, 0)[x] < GreedyCuts(ss, 0)[x + 1] <= b < |ss|
    requires Run(ss, GreedyCuts(ss, 0)[x], GreedyCuts(ss, 0)[x + 1])
    requires Mergeable(ModeOf(ss[GreedyCuts(ss, 0)[x]].kind))
    requires Number(ss[GreedyCuts(ss, 0)[x + 1]]) > MaxEnd(ss, GreedyCuts(ss, 0)[x], GreedyCuts(ss, 0)[x + 1])
    ensures Apart(rs, ss[GreedyCuts(ss, 0)[x]], ss[b])
  {
    hide ModeOf, Number, Run, Separated, MaxEnd;
    var a, n := GreedyCuts(ss, 0)[x], GreedyCuts(ss, 0)[x + 1];
    var m, p := ModeOf(ss[a].kind), Number(ss[n]) - 1;
    EndWithin(ss, a, n, a);
    forall q | 0 <= q < n && ModeOf(ss[q].kind) == m ensures End(ss[q]) <= p {
      if q < a { CutStarts(rs, ss, f, x, q); } else { EndWithin(ss, a, n, q); }
    }
    Unasked(rs, ss, f, m, p, n);
    if n < b { OrderAt(ss, n, b); }
    GapApart(rs, ss[a], ss[b], p);
  }

  /** The segment ended because the next request of its mode would exceed the limit. */
  lemma LimitApart(rs: seq<Request>, ss: seq<Request>, f: Device.Family, x: nat, y: nat)
    requires Bucketed(rs, ss, f) && Separated(rs) && x < y && y + 1 < |GreedyCuts(ss, 0)|
    requires GreedyCuts(ss, 0)[x] < GreedyCuts(ss, 0)[x + 1] <= GreedyCuts(ss, 0)[y] < |ss|
    requires var a, n, b := GreedyCuts(ss, 0)[x], GreedyCuts(ss, 0)[x + 1], GreedyCuts(ss, 0)[y];
             && Mergeable(ModeOf(ss[a].kind)) && ModeOf(ss[a].kind) == ModeOf(ss[n].kind) == ModeOf(ss[b].kind)
             && Number(ss[n]) <= MaxEnd(ss, a, n) && !CanAppend(ss[a], MaxEnd(ss, a, n), ss[n])
    ensures Apart(rs, ss[GreedyCuts(ss, 0)[x]], ss[GreedyCuts(ss, 0)[y]])
  {
    hide ModeOf, Number, Separated, MaxEnd, Limit;
    var a, n, b := GreedyCuts(ss, 0)[x], GreedyCuts(ss, 0)[x + 1], GreedyCuts(ss, 0)[y];
    OrderAt(ss, a, n);
    FamilyAt(ss, f, a);
    FamilyAt(ss, f, n);
    assert End(ss[n]) - Number(ss[a]) > Limit(f, ModeOf(ss[a].kind));
    if n < b { CutStarts(rs, ss, f, y, n); }
    assert End(ss[b]) >= End(ss[n]);
    hide CanAppend, AskedFor;
    assert ss[a] != ss[b];
  }

  // ---------------------------------------------------------------- over all families

  /** The first requests of the greedy segments of a sorted bucket. */
  function Firsts(ss: seq<Request>): (firsts: seq<Request>)
    ensures |firsts| == |Greedy(ss, 0)|
  {
    seq(|GreedyCuts(ss, 0)| - 1, k requires 0 <= k < |GreedyCuts(ss, 0)| - 1 => FirstAt(ss, k))
  }

  function FirstAt(ss: seq<Request>, k: nat): Request
    requires k < |GreedyCuts(ss, 0)| - 1
  {
    CutsGrow(ss);
    ss[GreedyCuts(ss, 0)[k]]
  }

  lemma CutsGrow(ss: seq<Request>)
    ensures forall k :: 0 <= k < |GreedyCuts(ss, 0)| - 1 ==> GreedyCuts(ss, 0)[k] < |ss|
    ensures forall j, k :: 0 <= j < k < |GreedyCuts(ss, 0)| ==> GreedyCuts(ss, 0)[j] < GreedyCuts(ss, 0)[k]
  {
    hide Extend, GreedyCuts;
    var g := GreedyCuts(ss, 0);
    forall k | 0 <= k < |g| - 1 ensures g[k] < |ss| { GreedyCutAt(ss, 0, k); }
    forall j, k | 0 <= j < k < |g| ensures g[j] < g[k] { CutsGrowTo(ss, j, k); }
  }

  lemma {:induction false} CutsGrowTo(ss: seq<Request>, j: nat, k: nat)
    requires j < k < |GreedyCuts(ss, 0)|
    ensures GreedyCuts(ss, 0)[j] < GreedyCuts(ss, 0)[k]
    decreases k
  {
    hide GreedyCuts;
    GreedyCutAt(ss, 0, k - 1);
    if j < k - 1 { CutsGrowTo(ss, j, k - 1); }
  }

  ghost predicate AllApart(rs: seq<Request>, apart: seq<Request>) {
    forall i, j :: 0 <= i < j < |apart| ==> Apart(rs, apart[i], apart[j])
  }

  lemma FirstsApart(rs: seq<Request>, ss: seq<Request>, f: Device.Family)
    requires Bucketed(rs, ss, f) && Separated(rs)
    ensures AllApart(rs, Firsts(ss)) && forall r :: r in Firsts(ss) ==> r in rs && r.base.family == f
  {
    hide Separated, Apart, GreedyCuts, Extend;
    CutsGrow(ss);
    var g, firsts := GreedyCuts(ss, 0), Firsts(ss);
    forall i, j | 0 <= i < j < |firsts| ensures Apart(rs, firsts[i], firsts[j]) { CutsApart(rs, ss, f, i, j); }
    assert forall k :: 0 <= k < |firsts| ==> firsts[k] == ss[g[k]] && firsts[k] in ss;
  }

  /** The buckets of `rs`, one for each family. */
  ghost predicate BucketsOf(rs: seq<Request>, buckets: seq<Bucket>) {
    && (forall i, j :: 0 <= i < j < |buckets| ==> buckets[i].family != buckets[j].family)
    && (forall i :: 0 <= i < |buckets| ==> Bucketed(rs, Sorted(buckets[i].requests), buckets[i].family))
  }

  function AllFirsts(buckets: seq<Bucket>): (firsts: seq<Request>)
    ensures |firsts| == |AllSegments(buckets)|
  {
    if buckets == [] then [] else Firsts(Sorted(buckets[0].requests)) + AllFirsts(buckets[1..])
  }

  ghost predicate InFamilies(r: Request, buckets: seq<Bucket>) {
    exists i :: 0 <= i < |buckets| && buckets[i].family == r.base.family
  }

  lemma {:induction false} AllFirstsApart(rs: seq<Request>, buckets: seq<Bucket>)
    requires BucketsOf(rs, buckets) && Separated(rs)
    ensures AllApart(rs, AllFirsts(buckets))
    ensures forall r :: r in AllFirsts(buckets) ==> r in rs && InFamilies(r, buckets)
  {
    hide Separated, Apart, Bucketed, Firsts;
    if buckets != [] {
      var b, rest := buckets[0], buckets[1..];
      AllFirstsApart(rs, rest);
      FirstsApart(rs, Sorted(b.requests), b.family);
      var mine, others := Firsts(Sorted(b.requests)), AllFirsts(rest);
      forall r | r in others ensures InFamilies(r, buckets) && r.base.family != b.family { FamilyLater(r, buckets); }
      forall i, j | 0 <= i < |mine| && 0 <= j < |others| ensures Apart(rs, mine[i], others[j]) {
        DifferentFamilies(rs, mine[i], others[j]);
      }
    }
  }

  lemma FamilyLater(r: Request, buckets: seq<Bucket>)
    requires buckets != [] && InFamilies(r, buckets[1..])
    requires forall i, j :: 0 <= i < j < |buckets| ==> buckets[i].family != buckets[j].family
    ensures InFamilies(r, buckets) && r.base.family != buckets[0].family
  {
    var i :| 0 <= i < |buckets[1..]| && buckets[1..][i].family == r.base.family;
    assert buckets[i + 1] == buckets[1..][i];
  }

  lemma DifferentFamilies(rs: seq<Request>, a: Request, b: Request)
    requires a.base.family != b.base.family
    ensures Apart(rs, a, b)
  {
    hide ModeOf, Number, AskedFor;
  }

  // ---------------------------------------------------------------- the buckets of a request list

  /** Each request is in the bucket of its family, and no two buckets are of one family. */
  ghost predicate ByFamily(rs: seq<Request>, buckets: seq<Bucket>) {
    && (forall i, j :: 0 <= i < j < |buckets| ==> buckets[i].family != buckets[j].family)
    && (forall i, r :: 0 <= i < |buckets| ==>
          (r in buckets[i].requests <==> r in rs && r.base.family == buckets[i].family))
    && (forall r :: r in rs ==> InFamilies(r, buckets))
  }

  /** Where the bucket of the request is. */
  lemma {:induction false} AddToIs(buckets: seq<Bucket>, r: Request) returns (i: nat)
    ensures i <= |buckets| && forall j :: 0 <= j < i ==> buckets[j].family != r.base.family
    ensures i < |buckets| ==>
      && buckets[i].family == r.base.family
      && AddTo(buckets, r) == buckets[i := Bucket(r.base.family, buckets[i].requests + [r])]
    ensures i == |buckets| ==> AddTo(buckets, r) == buckets + [Bucket(r.base.family, [r])]
  {
    if buckets == [] || buckets[0].family == r.base.family {
      i := 0;
    } else {
      var k := AddToIs(buckets[1..], r);
      i := k + 1;
      assert forall j :: 1 <= j < |buckets| ==> buckets[j] == buckets[1..][j - 1];
    }
  }

  lemma AddToByFamily(rs: seq<Request>, buckets: seq<Bucket>, r: Request)
    requires ByFamily(rs, buckets)
    ensures ByFamily(rs + [r], AddTo(buckets, r))
  {
    hide InFamilies;
    var i := AddToIs(buckets, r);
    var added, more := AddTo(buckets, r), rs + [r];
    assert forall q :: q in more <==> q in rs || q == r;
    forall q | q in more ensures InFamilies(q, added) {
      if q == r { Listed(q, added, i); } else { StillListed(q, buckets, added); }
    }
    if i < |buckets| {
      assert forall q :: q in added[i].requests <==> q in buckets[i].requests || q == r;
    } else {
      assert forall q :: q in rs ==> q.base.family != r.base.family by { NotListed(rs, buckets, r.base.family); }
    }
  }

  lemma Listed(r: Request, buckets: seq<Bucket>, i: nat)
    requires i < |buckets| && buckets[i].family == r.base.family
    ensures InFamilies(r, buckets)
  {
  }

  lemma StillListed(r: Request, buckets: seq<Bucket>, added: seq<Bucket>)
    requires InFamilies(r, buckets) && |buckets| <= |added|
    requires forall j :: 0 <= j < |buckets| ==> added[j].family == buckets[j].family
    ensures InFamilies(r, added)
  {
    var j :| 0 <= j < |buckets| && buckets[j].family == r.base.family;
    assert added[j].family == r.base.family;
  }

  lemma NotListed(rs: seq<Request>, buckets: seq<Bucket>, f: Device.Family)
    requires ByFamily(rs, buckets) && forall j :: 0 <= j < |buckets| ==> buckets[j].family != f
    ensures forall q :: q in rs ==> q.base.family != f
  {
    forall q | q in rs ensures q.base.family != f { assert InFamilies(q, buckets); }
  }

  lemma {:induction false} BucketsByFamily(rs: seq<Request>)
    ensures ByFamily(rs, Buckets(rs))
  {
    hide AddTo;
    if rs != [] {
      var n := |rs| - 1;
      BucketsByFamily(rs[..n]);
      AddToByFamily(rs[..n], Buckets(rs[..n]), rs[n]);
      assert rs == rs[..n] + [rs[n]];
    }
  }

  lemma {:induction false} OnceAtMost(rs: seq<Request>)
    requires Numbered(rs)
    ensures forall r :: multiset(rs)[r] <= 1
  {
    if rs != [] {
      var n := |rs| - 1;
      OnceAtMost(rs[..n]);
      assert rs == rs[..n] + [rs[n]];
      assert rs[n] !in rs[..n];
    }
  }

  lemma {:induction false} InFlat(buckets: seq<Bucket>, i: nat)
    requires i < |buckets|
    ensures multiset(buckets[i].requests) <= multiset(FlatBuckets(buckets))
  {
    if i > 0 { InFlat(buckets[1..], i - 1); }
  }

  lemma {:induction false} OnceIsDistinct(ss: seq<Request>, i: nat, j: nat)
    requires i < j < |ss| && forall r :: multiset(ss)[r] <= 1
    ensures ss[i] != ss[j]
  {
    assert ss == ss[..j] + [ss[j]] + ss[j + 1..];
    assert ss[..j][i] == ss[i] && ss[i] in multiset(ss[..j]);
    assert multiset(ss)[ss[j]] >= multiset(ss[..j])[ss[j]] + 1;
  }

  lemma BucketsAreOf(rs: seq<Request>)
    requires Numbered(rs)
    ensures BucketsOf(rs, Buckets(rs))
  {
    hide Buckets, Bucketed, OneFamily, ByFamily, Families, Sorted;
    var buckets := Buckets(rs);
    BucketsByFamily(rs);
    BucketsKeep(rs);
    OnceAtMost(rs);
    assert forall i, j :: 0 <= i < j < |buckets| ==> buckets[i].family != buckets[j].family by { Differ(rs, buckets); }
    forall i | 0 <= i < |buckets| ensures Bucketed(rs, Sorted(buckets[i].requests), buckets[i].family) {
      InFlat(buckets, i);
      BucketHolds(rs, buckets, i);
      SortedBucket(rs, buckets[i]);
    }
  }

  lemma Differ(rs: seq<Request>, buckets: seq<Bucket>)
    requires ByFamily(rs, buckets)
    ensures forall i, j :: 0 <= i < j < |buckets| ==> buckets[i].family != buckets[j].family
  {
  }

  lemma BucketHolds(rs: seq<Request>, buckets: seq<Bucket>, i: nat)
    requires ByFamily(rs, buckets) && Families(buckets) && i < |buckets|
    ensures OneFamily(buckets[i].requests, buckets[i].family)
    ensures forall r :: r in buckets[i].requests <==> r in rs && r.base.family == buckets[i].family
  {
  }

  lemma SortedBucket(rs: seq<Request>, b: Bucket)
    requires OneFamily(b.requests, b.family) && multiset(b.requests) <= multiset(rs)
    requires forall r :: multiset(rs)[r] <= 1
    requires forall r :: r in b.requests <==> r in rs && r.base.family == b.family
    ensures Bucketed(rs, Sorted(b.requests), b.family)
  {
    hide Sorted, OneFamily, InOrder;
    var ss := Sorted(b.requests);
    SortedKeeps(b.requests);
    SortedFamily(b.requests, b.family);
    SameElements(ss, b.requests);
    forall r ensures multiset(ss)[r] <= 1 { assert multiset(ss)[r] <= multiset(rs)[r]; }
    forall j, k | 0 <= j < k < |ss| ensures ss[j] != ss[k] { OnceIsDistinct(ss, j, k); }
  }

  lemma SameElements(a: seq<Request>, b: seq<Request>)
    requires multiset(a) == multiset(b)
    ensures forall r :: r in a <==> r in b
  {
    forall r ensures r in a <==> r in b { assert r in a <==> r in multiset(a); }
  }

  /** Where no request splits two that touch, no choice of reads has fewer than the plan. */
  lemma SeparatedIsFewest(rs: seq<Request>, sent: seq<Read>)
    requires Numbered(rs) && Separated(rs) && ServesAll(rs, sent)
    ensures |PlanOf(rs)| <= |sent|
  {
    hide Separated, Apart, ServesAll, BucketsOf, Buckets;
    BucketsAreOf(rs);
    AllFirstsApart(rs, Buckets(rs));
    var used := AtLeastApart(rs, AllFirsts(Buckets(rs)), sent);
  }
}
