/**
 The total work of the receive accumulator is linear in the bytes received.

 A run is any sequence of events in which an append follows a reset or a scan that found no line, and nothing but a
 reset follows a rejected response. Other events in the sequence are skipped.
 */
module ReceiveWork {
  import opened Accumulator

  datatype Event = Append(chunk: seq<Byte>) | Take(limit: nat) | Discard | Reset(release: bool)

  datatype Phase = Ready | Loaded | Failed

  /** `leading` records whether a scan ever met separators in front of its first byte. */
  datatype Run = Run(acc: Acc, phase: Phase, appended: nat, leading: bool)

  predicate Allowed(r: Run, e: Event) {
    match e
    case Append(_) => r.phase == Ready
    case Take(_) => r.phase != Failed
    case Discard => r.phase != Failed && r.acc.scan == 0
    case Reset(_) => true
  }

  function Apply(r: Run, e: Event): Run
    requires ValidAcc(r.acc)
  {
    match e
    case Append(chunk) => Run(AppendTo(r.acc, chunk), Loaded, r.appended + |chunk|, r.leading)
    case Take(limit) =>
      var out := TakeOutcome(r.acc, limit);
      Run(TakeFrom(r.acc, limit), if out.Incomplete? || out.Line? then Ready else Failed, r.appended,
          r.leading || Lead(r.acc) > 0)
    case Discard =>
      var (acc, more) := DiscardFrom(r.acc);
      Run(acc, if more then Failed else Ready, r.appended, r.leading || SepPrefix(r.acc.pending) > 0)
    case Reset(release) => Run(ResetTo(r.acc, release), Ready, r.appended, r.leading)
  }

  function After(events: seq<Event>): (r: Run)
    ensures ValidAcc(r.acc)
  {
    if events == [] then Run(Fresh, Ready, 0, false)
    else
      var r := After(events[..|events| - 1]);
      var e := events[|events| - 1];
      ApplyValid(r, e);
      if Allowed(r, e) then Apply(r, e) else r
  }

  lemma ApplyValid(r: Run, e: Event)
    requires ValidAcc(r.acc)
    ensures Allowed(r, e) ==> ValidAcc(Apply(r, e).acc)
  {
    match e
    case Append(chunk) => AppendValid(r.acc, chunk);
    case Take(limit) => TakeFromValid(r.acc, limit);
    case _ =>
  }

  // ---------------------------------------------------------------- who pays for the copies

  /**
   The copies of a run by cause. An epoch is the life of one buffer, ended by a releasing reset: within it growth
   copies are paid for by the doubling, and each line is compacted with bytes in it at most once.
   */
  datatype Ledger = Ledger(past: nat, pastGrown: nat, epoch: nat, grown: nat, packed: nat, packedLine: bool)

  function Charge(l: Ledger, r: Run, e: Event): Ledger {
    match e
    case Append(chunk) =>
      var moved := if r.acc.start + |r.acc.pending| + |chunk| <= r.acc.capacity then 0 else |r.acc.pending|;
      var l' := l.(epoch := l.epoch + |chunk|);
      if AppendTo(r.acc, chunk).capacity > r.acc.capacity then l'.(grown := l.grown + moved)
      else l'.(packed := l.packed + moved, packedLine := l.packedLine || moved > 0)
    case Reset(true) => Ledger(l.past + l.epoch, l.pastGrown + l.grown, 0, 0, l.packed, false)
    case Reset(false) => l.(packedLine := false)
    case Take(limit) => if TakeOutcome(r.acc, limit).Line? then l.(packedLine := false) else l
    case Discard => l
  }

  ghost predicate Balanced(l: Ledger, r: Run) {
    && ValidAcc(r.acc)
    && r.acc.copied == r.appended + l.pastGrown + l.grown + l.packed
    && l.past + l.epoch == r.appended
    && l.pastGrown <= 2 * l.past && l.grown <= 2 * l.epoch && l.grown <= r.acc.capacity
    && |r.acc.pending| <= l.epoch
    && l.packed <= r.appended
    && (!r.leading ==> l.packed == 0 && r.acc.start == 0)
    && r.acc.scanned <= r.appended
    && (r.phase != Failed ==>
      && r.acc.scanned + |r.acc.pending| - r.acc.scan <= r.appended
      && (if l.packedLine then r.acc.start == 0 < r.acc.scan else l.packed + |r.acc.pending| <= r.appended))
    && (r.phase == Ready ==> r.acc.scan == |r.acc.pending|)
  }

  /** An append in numbers. */
  lemma AppendCounts(a: Acc, chunk: seq<Byte>)
    requires ValidAcc(a)
    ensures var b := AppendTo(a, chunk);
            && ValidAcc(b) && b.scan == a.scan && b.scanned == a.scanned && |b.pending| == |a.pending| + |chunk|
            && (if a.start + |b.pending| <= a.capacity then
                  b.start == a.start && b.capacity == a.capacity && b.copied == a.copied + |chunk|
                else
                  && b.start == 0 && b.copied == a.copied + |b.pending|
                  && (if a.start > 0 && |b.pending| <= a.capacity then b.capacity == a.capacity
                      else b.capacity >= 2 * a.capacity && |b.pending| > a.capacity && b.capacity > 0))
  {
    AppendValid(a, chunk);
  }

  lemma AppendBalanced(l: Ledger, r: Run, chunk: seq<Byte>)
    requires Balanced(l, r) && r.phase == Ready
    ensures Balanced(Charge(l, r, Append(chunk)), Apply(r, Append(chunk)))
  {
    AppendCounts(r.acc, chunk);
    hide AppendTo;
  }

  /** A scan in numbers. */
  lemma TakeCounts(a: Acc, limit: nat)
    requires ValidAcc(a)
    ensures var b := TakeFrom(a, limit);
            && b.copied == a.copied && b.capacity == a.capacity && |b.pending| <= |a.pending|
            && b.scanned <= a.scanned + |a.pending| - a.scan
            && match TakeOutcome(a, limit)
               case Line(_, _) => b.pending == [] && b.start == b.scan == 0
               case Incomplete =>
                 && b.scan == |b.pending| && b.start == a.start + Lead(a)
                 && (a.scan > 0 ==> b.scan == |a.pending|)
               case _ => b.start == a.start + Lead(a)
  {
  }

  lemma TakeBalanced(l: Ledger, r: Run, limit: nat)
    requires Balanced(l, r) && r.phase != Failed
    ensures Balanced(Charge(l, r, Take(limit)), Apply(r, Take(limit)))
  {
    TakeCounts(r.acc, limit);
    ApplyValid(r, Take(limit));
    hide TakeFrom, TakeOutcome;
  }

  lemma OtherBalanced(l: Ledger, r: Run, e: Event)
    requires Balanced(l, r) && Allowed(r, e) && (e.Discard? || e.Reset?)
    ensures Balanced(Charge(l, r, e), Apply(r, e))
  {
  }

  lemma {:induction false} Books(events: seq<Event>) returns (l: Ledger)
    ensures Balanced(l, After(events))
  {
    if events == [] {
      l := Ledger(0, 0, 0, 0, 0, false);
    } else {
      var r, e := After(events[..|events| - 1]), events[|events| - 1];
      l := Books(events[..|events| - 1]);
      if Allowed(r, e) {
        match e {
          case Append(chunk) => AppendBalanced(l, r, chunk);
          case Take(limit) => TakeBalanced(l, r, limit);
          case _ => OtherBalanced(l, r, e);
        }
        l := Charge(l, r, e);
      }
    }
  }

  /**
   Every run scans each byte at most once and copies at most four times what it received, three without leading
   separators.
   */
  lemma LinearWork(events: seq<Event>)
    ensures var r := After(events);
            && r.acc.scanned <= r.appended
            && r.acc.copied <= 4 * r.appended
            && (!r.leading ==> r.acc.copied <= 3 * r.appended)
  {
    var l := Books(events);
  }
}
