/**
 The TCP receive accumulator: a growable byte buffer with a start, a count and a scan cursor.

 `Acc` is its value: what is pending, how far it was scanned, and the two work counters. The class
 `TcpReceiveAccumulator` does the same in place; each of its methods is proved equal to a function on `Acc`.
 */
module Accumulator {
  type Byte = b: int | 0 <= b < 256

  const LF: Byte := 10
  const CR: Byte := 13
  const INITIAL_CAPACITY := 4096

  predicate IsSep(b: Byte) { b == LF || b == CR }

  predicate AllSep(s: seq<Byte>) { forall i :: 0 <= i < |s| ==> IsSep(s[i]) }

  /** Length of the longest prefix made of separators. */
  function SepPrefix(s: seq<Byte>): (n: nat)
    ensures n <= |s| && forall k :: 0 <= k < n ==> IsSep(s[k])
    ensures n < |s| ==> !IsSep(s[n])
  {
    if s != [] && IsSep(s[0]) then 1 + SepPrefix(s[1..]) else 0
  }

  /** Length of the longest prefix without separators. */
  function BodyLength(s: seq<Byte>): (n: nat)
    ensures n <= |s| && forall k :: 0 <= k < n ==> !IsSep(s[k])
    ensures n < |s| ==> IsSep(s[n])
  {
    if s != [] && !IsSep(s[0]) then 1 + BodyLength(s[1..]) else 0
  }

  lemma {:induction false} SepPrefixIs(s: seq<Byte>, n: nat)
    requires n <= |s| && forall k :: 0 <= k < n ==> IsSep(s[k])
    requires n < |s| ==> !IsSep(s[n])
    ensures SepPrefix(s) == n
  {
  }

  lemma {:induction false} BodyLengthIs(s: seq<Byte>, n: nat)
    requires n <= |s| && forall k :: 0 <= k < n ==> !IsSep(s[k])
    requires n < |s| ==> IsSep(s[n])
    ensures BodyLength(s) == n
  {
  }

  // ---------------------------------------------------------------- the accumulator as a value

  datatype Acc = Acc(capacity: nat, start: nat, pending: seq<Byte>, scan: nat, scanned: nat, copied: nat)

  /** The two ways `try_take_line` raises, next to its two ways of returning. */
  datatype TakeResult = Incomplete | Line(line: seq<Byte>, counted: nat) | TooLong | ExtraLine

  const Fresh := Acc(0, 0, [], 0, 0, 0)

  predicate ValidAcc(a: Acc) {
    a.scan <= |a.pending| && a.start + |a.pending| <= a.capacity
    && forall k :: 0 <= k < a.scan ==> !IsSep(a.pending[k])
  }

  function Max(a: nat, b: nat): nat { if a < b then b else a }

  function AppendTo(a: Acc, chunk: seq<Byte>): Acc {
    var required := |a.pending| + |chunk|;
    if chunk == [] then a
    else if a.start + required <= a.capacity then
      a.(pending := a.pending + chunk, copied := a.copied + |chunk|)
    else
      a.(start := 0, pending := a.pending + chunk, copied := a.copied + required,
         capacity := if a.start > 0 && required <= a.capacity then a.capacity
                     else Max(Max(INITIAL_CAPACITY, required), 2 * Max(1, a.capacity)))
  }

  function ResetTo(a: Acc, release: bool): Acc {
    a.(start := 0, pending := [], scan := 0, capacity := if release then 0 else a.capacity)
  }

  /** Leading separators that a scan starting at `a.scan` drops. */
  function Lead(a: Acc): (n: nat)
    ensures n <= |a.pending|
  {
    if a.scan == 0 then SepPrefix(a.pending) else 0
  }

  /** What one scan finds, on the pending bytes after leading separators. */
  function TakeOutcome(a: Acc, limit: nat): TakeResult {
    var q := a.pending[Lead(a)..];
    var i := BodyLength(q);
    if i == |q| then
      if a.scan < |a.pending| && i > limit then TooLong else Incomplete
    else if i > limit then TooLong
    else if AllSep(q[i..]) then Line(q[..i], i + 1)
    else ExtraLine
  }

  /** The accumulator after one scan, counters included. */
  function TakeFrom(a: Acc, limit: nat): Acc
    requires ValidAcc(a)
  {
    var lead := Lead(a);
    var q := a.pending[lead..];
    var i := BodyLength(q);
    var kept := a.(start := a.start + lead, pending := q);
    match TakeOutcome(a, limit)
    case Incomplete => kept.(scan := |q|, scanned := a.scanned + |a.pending| - a.scan)
    case Line(_, _) => ResetTo(a.(scanned := a.scanned + |a.pending| - a.scan), false)
    case TooLong =>
      // The scan stops on the byte that exceeds the limit, or on a separator met with too much already scanned.
      if a.scan == i && i > 0 then kept.(scanned := a.scanned + 1)
      else
        var stop := Max(a.scan, limit) + 1;
        kept.(scan := stop, scanned := a.scanned + lead + stop - a.scan)
    case ExtraLine =>
      kept.(scan := i, scanned := a.scanned + lead + (i - a.scan) + 1 + SepPrefix(q[i + 1..]))
  }

  /** `discard_separators`, called with nothing scanned; also whether other input remains. */
  function DiscardFrom(a: Acc): (Acc, bool) {
    var n := SepPrefix(a.pending);
    var b := a.(start := a.start + n, pending := a.pending[n..], scanned := a.scanned + n);
    if n == |a.pending| then (ResetTo(b, false), false) else (b, true)
  }

  lemma TakeFromValid(a: Acc, limit: nat)
    requires ValidAcc(a)
    ensures ValidAcc(TakeFrom(a, limit))
    ensures TakeOutcome(a, limit) == Incomplete ==>
      TakeFrom(a, limit).pending == a.pending[Lead(a)..] && TakeFrom(a, limit).scan == |a.pending| - Lead(a)
  {
    match TakeOutcome(a, limit)
    case TooLong => TooLongValid(a, limit);
    case Incomplete => IncompleteValid(a, limit);
    case _ => FoundValid(a, limit);
    hide TakeOutcome, TakeFrom, ValidAcc, Lead;
  }

  /** What a scan keeps, after leading separators. */
  lemma KeptBytes(a: Acc)
    ensures var q := a.pending[Lead(a)..];
            && |q| == |a.pending| - Lead(a)
            && forall k :: 0 <= k < |q| ==> q[k] == a.pending[Lead(a) + k]
  {
    hide Lead;
  }

  lemma TooLongValid(a: Acc, limit: nat)
    requires ValidAcc(a) && TakeOutcome(a, limit) == TooLong
    ensures ValidAcc(TakeFrom(a, limit))
  {
    hide SepPrefix, BodyLength, AllSep, IsSep;
    KeptBytes(a);
  }

  lemma IncompleteValid(a: Acc, limit: nat)
    requires ValidAcc(a) && TakeOutcome(a, limit) == Incomplete
    ensures ValidAcc(TakeFrom(a, limit))
    ensures TakeFrom(a, limit).pending == a.pending[Lead(a)..] && TakeFrom(a, limit).scan == |a.pending| - Lead(a)
  {
    hide SepPrefix, BodyLength, AllSep, IsSep;
    KeptBytes(a);
  }

  lemma FoundValid(a: Acc, limit: nat)
    requires ValidAcc(a) && (TakeOutcome(a, limit).Line? || TakeOutcome(a, limit) == ExtraLine)
    ensures ValidAcc(TakeFrom(a, limit))
  {
    hide SepPrefix, BodyLength, AllSep, IsSep;
    KeptBytes(a);
  }

  lemma AppendValid(a: Acc, chunk: seq<Byte>)
    requires ValidAcc(a)
    ensures ValidAcc(AppendTo(a, chunk))
  {
  }

  // ---------------------------------------------------------------- where one scan can stop

  /**
   Mid-scan facts: separators up to `lead`, no separator from there to `pos`, and nothing dropped after a body byte.
   */
  ghost predicate Scanned(a: Acc, lead: nat, pos: nat) {
    && lead <= pos <= |a.pending| && a.scan <= pos
    && (forall k :: 0 <= k < lead ==> IsSep(a.pending[k]))
    && (forall k :: lead <= k < pos ==> !IsSep(a.pending[k]))
    && (a.scan > 0 ==> lead == 0)
  }

  /** The cursors of a scan begun at `a`: separators dropped up to `start`, bytes passed over up to `scan`. */
  ghost predicate Suspended(a: Acc, start: nat, count: nat, scan: nat) {
    && ValidAcc(a) && a.start <= start <= scan
    && start + count == a.start + |a.pending|
    && Scanned(a, start - a.start, scan - a.start)
  }

  /** A scan of `a` that dropped `lead` separators, stopped at `pos` and looked at `looked` bytes. */
  ghost function Left(a: Acc, lead: nat, pos: nat, looked: nat): Acc
    requires lead <= pos <= |a.pending|
  {
    Acc(a.capacity, a.start + lead, a.pending[lead..], pos - lead, a.scanned + looked, a.copied)
  }

  lemma Leads(a: Acc, lead: nat, pos: nat)
    requires ValidAcc(a) && Scanned(a, lead, pos)
    requires lead == pos < |a.pending| ==> !IsSep(a.pending[pos])
    ensures Lead(a) == lead
  {
    if a.scan == 0 { SepPrefixIs(a.pending, lead); }
  }

  lemma ExitIncomplete(a: Acc, limit: nat, lead: nat)
    requires ValidAcc(a) && Scanned(a, lead, |a.pending|)
    requires a.scan < |a.pending| ==> |a.pending| - lead <= limit
    ensures TakeOutcome(a, limit) == Incomplete
    ensures TakeFrom(a, limit) == Left(a, lead, |a.pending|, |a.pending| - a.scan)
  {
    Leads(a, lead, |a.pending|);
    BodyLengthIs(a.pending[lead..], |a.pending| - lead);
  }

  lemma ExitTooLong(a: Acc, limit: nat, lead: nat, pos: nat)
    requires ValidAcc(a) && Scanned(a, lead, pos) && lead < pos && a.scan < pos
    requires pos - lead > limit && (a.scan < pos - 1 ==> pos - 1 - lead <= limit)
    ensures TakeOutcome(a, limit) == TooLong
    ensures TakeFrom(a, limit) == Left(a, lead, pos, pos - a.scan)
  {
    Leads(a, lead, pos);
    var q := a.pending[lead..];
    assert BodyLength(q) < |q| ==> IsSep(a.pending[lead + BodyLength(q)]);
  }

  lemma ExitAtTerminator(a: Acc, limit: nat, lead: nat, pos: nat)
    requires ValidAcc(a) && Scanned(a, lead, pos) && lead < pos < |a.pending| && IsSep(a.pending[pos])
    requires pos - lead > limit && (a.scan < pos ==> pos - lead <= limit)
    ensures TakeOutcome(a, limit) == TooLong
    ensures TakeFrom(a, limit) == Left(a, lead, pos, pos + 1 - a.scan)
  {
    Leads(a, lead, pos);
    BodyLengthIs(a.pending[lead..], pos - lead);
  }

  lemma ExitLine(a: Acc, limit: nat, lead: nat, pos: nat)
    requires ValidAcc(a) && Scanned(a, lead, pos) && lead < pos < |a.pending| && pos - lead <= limit
    requires forall k :: pos <= k < |a.pending| ==> IsSep(a.pending[k])
    ensures TakeOutcome(a, limit) == Line(a.pending[lead..pos], pos - lead + 1)
    ensures TakeFrom(a, limit) == ResetTo(a.(scanned := a.scanned + |a.pending| - a.scan), false)
  {
    Leads(a, lead, pos);
    var q := a.pending[lead..];
    BodyLengthIs(q, pos - lead);
    assert q[..pos - lead] == a.pending[lead..pos];
  }

  lemma ExitExtra(a: Acc, limit: nat, lead: nat, pos: nat, skip: nat)
    requires ValidAcc(a) && Scanned(a, lead, pos) && lead < pos < skip < |a.pending| && pos - lead <= limit
    requires (forall k :: pos <= k < skip ==> IsSep(a.pending[k])) && !IsSep(a.pending[skip])
    ensures TakeOutcome(a, limit) == ExtraLine
    ensures TakeFrom(a, limit) == Left(a, lead, pos, skip - a.scan)
  {
    hide SepPrefix, BodyLength;
    Leads(a, lead, pos);
    var q := a.pending[lead..];
    BodyLengthIs(q, pos - lead);
    assert q[pos - lead..][skip - pos] == a.pending[skip];
    SepPrefixIs(q[pos - lead + 1..], skip - pos - 1);
  }

  lemma Discards(a: Acc)
    requires ValidAcc(a) && a.scan == 0
    ensures var n := SepPrefix(a.pending);
            var left := Left(a, n, n, n);
            DiscardFrom(a) == if n == |a.pending| then (ResetTo(left, false), false) else (left, true)
  {
  }

  // ---------------------------------------------------------------- the accumulator in place

  class TcpReceiveAccumulator {
    var buffer: array<Byte>
    var start: nat
    var count: nat
    var scan: nat
    var scanByteCount: nat
    var copyByteCount: nat
    ghost var pending: seq<Byte>  // the bytes of `buffer` from `start`, `count` of them

    ghost predicate Valid()
      reads this, buffer
    {
      && start <= scan <= start + count <= buffer.Length
      && Holds(buffer, start, count, pending)
      && forall k :: 0 <= k < scan - start ==> !IsSep(pending[k])
    }

    ghost function Value(): (a: Acc)
      requires Valid()
      reads this, buffer
      ensures ValidAcc(a)
    {
      Acc(buffer.Length, start, pending, scan - start, scanByteCount, copyByteCount)
    }

    constructor ()
      ensures Valid() && fresh(buffer) && Value() == Fresh
    {
      buffer := new Byte[0];
      start, count, scan, scanByteCount, copyByteCount := 0, 0, 0, 0, 0;
      pending := [];
    }

    method Append(chunk: seq<Byte>)
      requires Valid()
      modifies this, buffer
      ensures Valid() && (buffer == old(buffer) || fresh(buffer))
      ensures Value() == AppendTo(old(Value()), chunk)
    {
      if chunk == [] { return; }
      if start + count + |chunk| > buffer.Length {
        MakeRoom(|chunk|);
      }
      Store(buffer, start, count, pending, chunk);
      copyByteCount := copyByteCount + |chunk|;
      count := count + |chunk|;
      pending := pending + chunk;
    }

    /** Moves the pending bytes to the front, of this buffer or of one at least twice as large. */
    method MakeRoom(extra: nat)
      requires Valid() && start + count + extra > buffer.Length
      modifies this, buffer
      ensures Valid() && (buffer == old(buffer) || fresh(buffer)) && count + extra <= buffer.Length
      ensures count == old(count) && pending == old(pending) && start == 0 && scan == old(scan - start)
      ensures scanByteCount == old(scanByteCount) && copyByteCount == old(copyByteCount + count)
      ensures buffer.Length == (if old(start) > 0 && count + extra <= old(buffer.Length) then old(buffer.Length)
                                else Max(Max(INITIAL_CAPACITY, count + extra), 2 * Max(1, old(buffer.Length))))
    {
      var required := count + extra;
      if start > 0 && required <= buffer.Length {
        Compact(buffer, start, count, pending);
      } else {
        buffer := Grown(buffer, start, count, Max(Max(INITIAL_CAPACITY, required), Max(1, buffer.Length) * 2), pending);
      }
      copyByteCount := copyByteCount + count;
      scan := scan - start;
      start := 0;
    }

    method Reset(release: bool)
      modifies this
      ensures Valid() && (if release then fresh(buffer) else buffer == old(buffer))
      ensures start == 0 && count == 0 && scan == 0 && pending == []
      ensures scanByteCount == old(scanByteCount) && copyByteCount == old(copyByteCount)
      ensures buffer.Length == if release then 0 else old(buffer.Length)
      ensures old(Valid()) ==> Value() == ResetTo(old(Value()), release)
    {
      if release { buffer := new Byte[0]; }
      start, count, scan := 0, 0, 0;
      pending := [];
    }

    method TryTakeLine(limit: nat) returns (r: TakeResult)
      requires Valid()
      modifies this
      ensures Valid() && buffer == old(buffer)
      ensures r == TakeOutcome(old(Value()), limit)
      ensures Value() == TakeFrom(old(Value()), limit)
    {
      hide TakeOutcome, TakeFrom, Left, ValidAcc;
      ghost var a := Value();
      var end := start + count;
      while scan < end
        invariant buffer == old(buffer) && copyByteCount == a.copied && end == start + count
        invariant Suspended(a, start, count, scan)
        invariant a.start + a.scan < scan ==> scan - start <= limit
        invariant scanByteCount == a.scanned + scan - a.start - a.scan
      {
        var value := buffer[scan];
        assert value == a.pending[scan - a.start];
        scanByteCount := scanByteCount + 1;
        if scan == start && (value == 10 || value == 13) {
          start, count, scan := start + 1, count - 1, scan + 1;
          continue;
        }
        if value == 10 || value == 13 {
          r := TakeTerminated(limit, a);
          return;
        }
        scan := scan + 1;
        if scan - start > limit {
          LeaveTooLong(a, limit);
          return TooLong;
        }
      }
      LeaveIncomplete(a, limit);
      return Incomplete;
    }

    /** Ends a scan that found no line. */
    ghost method Leave(a: Acc)
      requires Suspended(a, start, count, scan) && buffer.Length == a.capacity
      requires Holds(buffer, a.start, |a.pending|, a.pending)
      requires scanByteCount >= a.scanned && copyByteCount == a.copied
      modifies `pending
      ensures Valid() && Value() == Left(a, start - a.start, scan - a.start, scanByteCount - a.scanned)
    {
      pending := a.pending[start - a.start..];
    }

    ghost method LeaveIncomplete(a: Acc, limit: nat)
      requires Suspended(a, start, count, scan) && scan == start + count && buffer.Length == a.capacity
      requires Holds(buffer, a.start, |a.pending|, a.pending)
      requires a.start + a.scan < scan ==> scan - start <= limit
      requires scanByteCount == a.scanned + scan - a.start - a.scan && copyByteCount == a.copied
      modifies `pending
      ensures Valid() && TakeOutcome(a, limit) == Incomplete && Value() == TakeFrom(a, limit)
    {
      hide TakeOutcome, TakeFrom, Scanned, Holds, IsSep, Left;
      ExitIncomplete(a, limit, start - a.start);
      Leave(a);
    }

    ghost method LeaveTooLong(a: Acc, limit: nat)
      requires Suspended(a, start, count, scan) && buffer.Length == a.capacity
      requires Holds(buffer, a.start, |a.pending|, a.pending)
      requires scan - start == limit + 1 || (scan - start > limit && scan - 1 == a.start + a.scan)
      requires a.start + a.scan < scan
      requires scanByteCount == a.scanned + scan - a.start - a.scan && copyByteCount == a.copied
      modifies `pending
      ensures Valid() && TakeOutcome(a, limit) == TooLong && Value() == TakeFrom(a, limit)
    {
      hide TakeOutcome, TakeFrom, Scanned, Holds, IsSep, Left, ValidAcc;
      ExitTooLong(a, limit, start - a.start, scan - a.start);
      Leave(a);
    }

    ghost method LeaveAtTerminator(a: Acc, limit: nat)
      requires Suspended(a, start, count, scan) && start < scan < start + count && buffer.Length == a.capacity
      requires Holds(buffer, a.start, |a.pending|, a.pending) && IsSep(a.pending[scan - a.start])
      requires scan - start > limit && scan == a.start + a.scan
      requires scanByteCount == a.scanned + 1 && copyByteCount == a.copied
      modifies `pending
      ensures Valid() && TakeOutcome(a, limit) == TooLong && Value() == TakeFrom(a, limit)
    {
      hide TakeOutcome, TakeFrom, Scanned, Holds, IsSep, Left, ValidAcc;
      ExitAtTerminator(a, limit, start - a.start, scan - a.start);
      Leave(a);
    }

    ghost method LeaveExtra(a: Acc, limit: nat, skip: nat)
      requires Suspended(a, start, count, scan) && start < scan < skip < start + count && buffer.Length == a.capacity
      requires Holds(buffer, a.start, |a.pending|, a.pending) && scan - start <= limit
      requires forall k :: scan - a.start <= k < skip - a.start ==> IsSep(a.pending[k])
      requires !IsSep(a.pending[skip - a.start])
      requires scanByteCount == a.scanned + skip - a.start - a.scan && copyByteCount == a.copied
      modifies `pending
      ensures Valid() && TakeOutcome(a, limit) == ExtraLine && Value() == TakeFrom(a, limit)
    {
      hide TakeOutcome, TakeFrom, Holds, IsSep, Left, ValidAcc;
      ExitExtra(a, limit, start - a.start, scan - a.start, skip - a.start);
      Leave(a);
    }

    /** The scan cursor stands on the terminator of the body that begins at `start`. */
    method TakeTerminated(limit: nat, ghost a: Acc) returns (r: TakeResult)
      requires Suspended(a, start, count, scan) && start < scan < start + count && buffer.Length == a.capacity
      requires Holds(buffer, a.start, |a.pending|, a.pending)
      requires IsSep(a.pending[scan - a.start])
      requires a.start + a.scan < scan ==> scan - start <= limit
      requires copyByteCount == a.copied && scanByteCount == a.scanned + scan - a.start - a.scan + 1
      modifies this
      ensures Valid() && buffer == old(buffer)
      ensures r == TakeOutcome(a, limit)
      ensures Value() == TakeFrom(a, limit)
    {
      hide TakeOutcome, TakeFrom;
      ghost var lead, pos := start - a.start, scan - a.start;
      var end := start + count;
      var bodyLength := scan - start;
      if bodyLength > limit {
        LeaveAtTerminator(a, limit);
        return TooLong;
      }
      var skip := scan + 1;
      while skip < end && (buffer[skip] == 10 || buffer[skip] == 13)
        modifies `scanByteCount
        invariant scan < skip <= end
        invariant forall k :: pos < k < skip - a.start ==> IsSep(a.pending[k])
        invariant scanByteCount == a.scanned + skip - a.start - a.scan
      {
        assert buffer[skip] == a.pending[skip - a.start];
        scanByteCount := scanByteCount + 1;
        skip := skip + 1;
      }
      if skip < end {
        assert buffer[skip] == a.pending[skip - a.start];
        LeaveExtra(a, limit, skip);
        return ExtraLine;
      }
      ExitLine(a, limit, lead, pos);
      var line := buffer[start..scan];
      HeldSlice(buffer, a.start, a.pending, lead, pos);
      Reset(false);
      return Line(line, bodyLength + 1);
    }

    /**
     Called with nothing scanned this drops the leading separators. With a scan suspended inside a body, as the client
     never calls it, it would drop as many bytes at the front as separators follow the scanned part.
     */
    method DiscardSeparators() returns (more: bool)
      requires Valid()
      modifies this
      ensures buffer == old(buffer) && copyByteCount == old(copyByteCount)
      ensures var n := SepPrefix(old(pending)[old(scan - start)..]);
              && scanByteCount == old(scanByteCount) + n && more == (old(count) > n)
              && start == (if more then old(start) + n else 0) && count == (if more then old(count) - n else 0)
              && scan == (if more then old(scan) + n else 0)
      ensures old(scan == start) ==>
        Valid() && Value() == DiscardFrom(old(Value())).0 && more == DiscardFrom(old(Value())).1
    {
      ghost var a := Value();
      assert |a.pending| == count;
      hide DiscardFrom, IsSep, Holds, Suspended, Scanned, Left, SepPrefix;
      Skip(a);
      if a.scan == 0 {
        assert a.pending[0..] == a.pending;
        Discards(a);
        Leave(a);
      }
      if count == 0 {
        Reset(false);
        return false;
      }
      return true;
    }

    /** Passes over the separators at the scan cursor, dropping a byte at the front for each. */
    method Skip(ghost a: Acc)
      requires Valid() && a == Value()
      modifies `start, `count, `scan, `scanByteCount
      ensures var n := SepPrefix(a.pending[a.scan..]);
              && n <= |a.pending| - a.scan && start == a.start + n && count == |a.pending| - n
              && scan == a.start + a.scan + n && scanByteCount == a.scanned + n
      ensures a.scan == 0 ==> Suspended(a, start, count, scan)
    {
      ghost var rest := a.pending[a.scan..];
      ghost var n := 0;
      var end := start + count;
      while scan < end && (buffer[scan] == 10 || buffer[scan] == 13)
        invariant n <= |rest| && end == a.start + |a.pending|
        invariant start == a.start + n && count + n == |a.pending| && scan == a.start + a.scan + n
        invariant scanByteCount == a.scanned + n
        invariant forall k :: 0 <= k < n ==> IsSep(rest[k])
      {
        assert buffer[scan] == a.pending[scan - a.start] == rest[n];
        scanByteCount := scanByteCount + 1;
        scan, start, count := scan + 1, start + 1, count - 1;
        n := n + 1;
      }
      if scan < end { assert buffer[scan] == a.pending[scan - a.start] == rest[n]; }
      SepPrefixIs(rest, n);
    }
  }

  /** `buffer` holds `s` from `start`, `count` bytes long. */
  ghost predicate Holds(buffer: array<Byte>, start: nat, count: nat, s: seq<Byte>)
    requires start + count <= buffer.Length
    reads buffer
  {
    |s| == count && forall k :: start <= k < start + count ==> buffer[k] == s[k - start]
  }

  lemma HeldSlice(buffer: array<Byte>, at: nat, s: seq<Byte>, lo: nat, hi: nat)
    requires at + |s| <= buffer.Length && Holds(buffer, at, |s|, s) && lo <= hi <= |s|
    ensures buffer[at + lo..at + hi] == s[lo..hi]
  {
    assert forall k :: 0 <= k < hi - lo ==> buffer[at + lo..at + hi][k] == s[lo..hi][k];
  }

  /** A larger buffer holding the same pending bytes at its front. */
  method Grown(buffer: array<Byte>, start: nat, count: nat, capacity: nat, ghost s: seq<Byte>)
    returns (grown: array<Byte>)
    requires start + count <= buffer.Length && count <= capacity && Holds(buffer, start, count, s)
    ensures fresh(grown) && grown.Length == capacity && Holds(grown, 0, count, s)
  {
    grown := new Byte[capacity](_ => 0);
    forall k | 0 <= k < count { grown[k] := buffer[start + k]; }
  }

  /** Moves the pending bytes to the front of the same buffer. */
  method Compact(buffer: array<Byte>, start: nat, count: nat, ghost s: seq<Byte>)
    requires start + count <= buffer.Length && Holds(buffer, start, count, s)
    modifies buffer
    ensures Holds(buffer, 0, count, s)
  {
    forall k | 0 <= k < count { buffer[k] := buffer[start + k]; }
  }

  method Store(buffer: array<Byte>, start: nat, count: nat, ghost s: seq<Byte>, chunk: seq<Byte>)
    requires start + count + |chunk| <= buffer.Length && Holds(buffer, start, count, s)
    modifies buffer
    ensures Holds(buffer, start, count + |chunk|, s + chunk)
  {
    forall k | 0 <= k < |chunk| { buffer[start + count + k] := chunk[k]; }
    assert forall k :: start + count <= k < start + count + |chunk| ==> buffer[k] == chunk[k - start - count];
  }
}
