/**
 Receiving one line over TCP: scan, read a chunk, append, scan again. A line the loop returns is the first line of the
 byte stream, however the stream was cut into chunks. Whether it returns one at all does depend on the cut when more
 than one line arrives: the loop decides on the bytes read when the first line was first terminated.
 */
module LineReceiver {
  import opened Wrappers
  import opened Accumulator

  /** How `_recv_tcp_line` leaves its loop; `Waiting` is the read that has not completed. */
  datatype RecvResult =
    | Received(line: seq<Byte>, counted: nat)
    | Rejected(why: TakeResult)
    | EndOfStream(partial: bool)
    | Waiting

  /** The loop over the chunks the reader yields; the empty chunk is end of stream. */
  function Recv(a: Acc, chunks: seq<seq<Byte>>, limit: nat): (Acc, RecvResult)
    requires ValidAcc(a)
    decreases |chunks|
  {
    TakeFromValid(a, limit);
    var b := TakeFrom(a, limit);
    match TakeOutcome(a, limit)
    case Line(line, counted) => (b, Received(line, counted))
    case TooLong => (ResetTo(b, true), Rejected(TooLong))
    case ExtraLine => (ResetTo(b, true), Rejected(ExtraLine))
    case Incomplete =>
      if chunks == [] then (b, Waiting)
      else if chunks[0] == [] then (b, EndOfStream(b.pending != []))
      else Recv(AppendTo(b, chunks[0]), chunks[1..], limit)
  }

  method RecvTcpLine(rx: TcpReceiveAccumulator, chunks: seq<seq<Byte>>, limit: nat) returns (r: RecvResult)
    requires rx.Valid()
    modifies rx, rx.buffer
    ensures rx.Valid() && (rx.buffer == old(rx.buffer) || fresh(rx.buffer))
    ensures (rx.Value(), r) == Recv(old(rx.Value()), chunks, limit)
  {
    ghost var whole := Recv(rx.Value(), chunks, limit);
    var i := 0;
    while true
      invariant i <= |chunks| && rx.Valid() && (rx.buffer == old(rx.buffer) || fresh(rx.buffer))
      invariant Recv(rx.Value(), chunks[i..], limit) == whole
      decreases |chunks| - i
    {
      ghost var a := rx.Value();
      TakeFromValid(a, limit);
      var completed := rx.TryTakeLine(limit);
      if completed.TooLong? || completed.ExtraLine? {
        rx.Reset(true);
        return Rejected(completed);
      }
      if completed.Line? {
        return Received(completed.line, completed.counted);
      }
      if i == |chunks| {
        return Waiting;
      }
      var chunk := chunks[i];
      if chunk == [] {
        return EndOfStream(rx.count != 0);
      }
      rx.Append(chunk);
      assert chunks[i..][1..] == chunks[i + 1..];
      i := i + 1;
    }
  }

  // ---------------------------------------------------------------- what the stream alone determines

  /** The bytes read before end of stream. */
  function Stream(chunks: seq<seq<Byte>>): seq<Byte> {
    if chunks == [] || chunks[0] == [] then [] else chunks[0] + Stream(chunks[1..])
  }

  function Core(s: seq<Byte>): seq<Byte> { s[SepPrefix(s)..] }

  /** The first non-empty line of `s`, when its terminator is there. */
  function FirstLine(s: seq<Byte>): Option<seq<Byte>> {
    var i := BodyLength(Core(s));
    if i < |Core(s)| then Some(Core(s)[..i]) else None
  }

  /** Nothing but separators follows the first line. */
  predicate OnlyLine(s: seq<Byte>) { AllSep(Core(s)[BodyLength(Core(s))..]) }

  lemma CoreExtend(p: seq<Byte>, x: seq<Byte>)
    ensures Core(p) != [] ==> Core(p + x) == Core(p) + x
    ensures Core(p) == [] ==> Core(p + x) == Core(x)
  {
    var n := SepPrefix(p);
    if n < |p| {
      SepPrefixIs(p + x, n);
    } else {
      SepPrefixIs(p + x, n + SepPrefix(x));
    }
  }

  lemma BodyExtend(q: seq<Byte>, x: seq<Byte>)
    ensures BodyLength(q) < |q| ==> BodyLength(q + x) == BodyLength(q)
    ensures BodyLength(q) == |q| ==> BodyLength(q + x) == |q| + BodyLength(x)
  {
    BodyLengthIs(q + x, if BodyLength(q) < |q| then BodyLength(q) else |q| + BodyLength(x));
  }

  /** Whatever was pending, each way out of the loop says what the stream holds. */
  ghost predicate Tells(r: RecvResult, s: seq<Byte>, limit: nat) {
    match r
    case Received(line, counted) => FirstLine(s) == Some(line) && |line| <= limit && counted == |line| + 1
    case Rejected(why) =>
      if why == TooLong then BodyLength(Core(s)) > limit
      else FirstLine(s).Some? && |FirstLine(s).value| <= limit && !OnlyLine(s)
    case _ => FirstLine(s) == None && BodyLength(Core(s)) <= limit
  }

  /** A valid accumulator scans exactly the core of what is pending. */
  lemma LeadIsSepPrefix(a: Acc)
    requires ValidAcc(a)
    ensures Lead(a) == SepPrefix(a.pending) && a.pending[Lead(a)..] == Core(a.pending)
  {
    if a.scan > 0 { SepPrefixIs(a.pending, 0); }
  }

  /** Once the first line is terminated, later bytes change neither it nor the junk found after it. */
  lemma TerminatedCore(p: seq<Byte>, x: seq<Byte>)
    requires BodyLength(Core(p)) < |Core(p)|
    ensures FirstLine(p + x) == Some(Core(p)[..BodyLength(Core(p))])
    ensures !OnlyLine(p) ==> !OnlyLine(p + x)
  {
    var q, i := Core(p), BodyLength(Core(p));
    CoreExtend(p, x);
    BodyExtend(q, x);
    assert (q + x)[..i] == q[..i];
    if !OnlyLine(p) {
      var k :| 0 <= k < |q[i..]| && !IsSep(q[i..][k]);
      assert (q + x)[i..][k] == q[i..][k];
    }
  }

  /** The scan result of the bytes seen so far tells the same of every continuation of them. */
  lemma TakeTells(a: Acc, limit: nat, x: seq<Byte>)
    requires ValidAcc(a) && a.scan <= limit && TakeOutcome(a, limit) != Incomplete
    ensures match TakeOutcome(a, limit)
            case Line(line, counted) => Tells(Received(line, counted), a.pending + x, limit)
            case why => Tells(Rejected(why), a.pending + x, limit)
  {
    LeadIsSepPrefix(a);
    var q := Core(a.pending);
    if BodyLength(q) < |q| {
      TerminatedCore(a.pending, x);
    }
    CoreExtend(a.pending, x);
    BodyExtend(q, x);
  }

  /** An incomplete scan only drops leading separators. */
  lemma IncompleteTells(a: Acc, limit: nat)
    requires ValidAcc(a) && a.scan <= limit && TakeOutcome(a, limit) == Incomplete
    ensures ValidAcc(TakeFrom(a, limit)) && TakeFrom(a, limit).scan <= limit
    ensures TakeFrom(a, limit).pending == Core(a.pending)
    ensures Tells(Waiting, a.pending, limit)
  {
    LeadIsSepPrefix(a);
    TakeFromValid(a, limit);
  }

  /** Dropping the leading separators of the bytes already seen changes nothing that is told. */
  lemma Regroup(r: RecvResult, p: seq<Byte>, chunk: seq<Byte>, rest: seq<Byte>, limit: nat)
    requires Tells(r, Core(p) + chunk + rest, limit)
    ensures Tells(r, p + (chunk + rest), limit)
  {
    var x := chunk + rest;
    assert Core(p) + chunk + rest == Core(p) + x;
    CoreExtend(p, x);
    if Core(p) != [] {
      SepPrefixIs(Core(p) + x, 0);
    } else {
      assert Core(p) + x == x;
    }
  }

  /** Every run of the loop: its result is told by the stream, whatever the chunks were. */
  lemma {:induction false} RecvTells(a: Acc, chunks: seq<seq<Byte>>, limit: nat)
    requires ValidAcc(a) && a.scan <= limit
    ensures Tells(Recv(a, chunks, limit).1, a.pending + Stream(chunks), limit)
    decreases |chunks|
  {
    if TakeOutcome(a, limit) != Incomplete {
      TakeTells(a, limit, Stream(chunks));
    } else {
      IncompleteTells(a, limit);
      if chunks == [] || chunks[0] == [] {
        assert a.pending + Stream(chunks) == a.pending;
      } else {
        hide Tells, TakeOutcome, TakeFrom;
        var b := AppendTo(TakeFrom(a, limit), chunks[0]);
        RecvTells(b, chunks[1..], limit);
        Regroup(Recv(b, chunks[1..], limit).1, a.pending, chunks[0], Stream(chunks[1..]), limit);
      }
    }
  }

  /** Two chunkings of one stream that both complete return the same line and the same counted length. */
  lemma ChunkingIrrelevant(a: Acc, b: Acc, chunks: seq<seq<Byte>>, others: seq<seq<Byte>>, limit: nat)
    requires ValidAcc(a) && ValidAcc(b) && a.pending == b.pending == []
    requires Stream(chunks) == Stream(others)
    requires Recv(a, chunks, limit).1.Received? && Recv(b, others, limit).1.Received?
    ensures Recv(a, chunks, limit).1 == Recv(b, others, limit).1
  {
    RecvTells(a, chunks, limit);
    RecvTells(b, others, limit);
    assert [] + Stream(chunks) == Stream(chunks);
  }

  /**
   A stream whose only line is within the limit is received under every chunking; without such a first line none is.
   */
  lemma OneLineIsReceived(a: Acc, chunks: seq<seq<Byte>>, limit: nat)
    requires ValidAcc(a) && a.pending == []
    ensures FirstLine(Stream(chunks)).Some? && |FirstLine(Stream(chunks)).value| <= limit && OnlyLine(Stream(chunks))
            ==> Recv(a, chunks, limit).1
                == Received(FirstLine(Stream(chunks)).value, |FirstLine(Stream(chunks)).value| + 1)
    ensures FirstLine(Stream(chunks)).None? || |FirstLine(Stream(chunks)).value| > limit
            ==> !Recv(a, chunks, limit).1.Received?
  {
    RecvTells(a, chunks, limit);
    assert [] + Stream(chunks) == Stream(chunks);
  }

  /** Separators at the front do not matter to what follows them. */
  lemma CoreOfCore(p: seq<Byte>, x: seq<Byte>)
    ensures Core(Core(p) + x) == Core(p + x)
  {
    CoreExtend(p, x);
    if Core(p) != [] {
      SepPrefixIs(Core(p) + x, 0);
    } else {
      assert Core(p) + x == x;
    }
  }

  /** Before the first line is terminated, a scan finds nothing, and the line is at least as long as what was seen. */
  lemma NotYet(a: Acc, limit: nat, x: seq<Byte>)
    requires ValidAcc(a) && a.scan <= limit && FirstLine(a.pending) == None
    requires FirstLine(a.pending + x).Some? && |FirstLine(a.pending + x).value| <= limit
    ensures TakeOutcome(a, limit) == Incomplete
  {
    hide SepPrefix, BodyLength, ValidAcc;
    LeadIsSepPrefix(a);
    ShorterCore(a.pending, x);
  }

  /** An unterminated line is no longer than the line it becomes. */
  lemma ShorterCore(p: seq<Byte>, x: seq<Byte>)
    requires FirstLine(p) == None && FirstLine(p + x).Some?
    ensures BodyLength(Core(p)) == |Core(p)| <= |FirstLine(p + x).value|
  {
    hide SepPrefix;
    CoreExtend(p, x);
    if Core(p) != [] { BodyExtend(Core(p), x); }
  }

  /** The bytes of the first `k` chunks are where the first line is first terminated. */
  ghost predicate FirstTerminated(p: seq<Byte>, chunks: seq<seq<Byte>>, k: nat) {
    && k <= |chunks| && (forall i :: 0 <= i < k ==> chunks[i] != [])
    && FirstLine(p + Stream(chunks[..k])).Some?
    && (k > 0 ==> FirstLine(p + Stream(chunks[..k - 1])) == None)
  }

  lemma TerminatedLater(p: seq<Byte>, chunks: seq<seq<Byte>>, k: nat)
    requires FirstTerminated(p, chunks, k) && k > 0
    ensures FirstLine(p) == None
    ensures p + Stream(chunks[..k]) == p + chunks[0] + Stream(chunks[1..][..k - 1])
    ensures FirstTerminated(Core(p) + chunks[0], chunks[1..], k - 1)
    ensures Core(Core(p) + chunks[0] + Stream(chunks[1..][..k - 1])) == Core(p + Stream(chunks[..k]))
  {
    hide FirstLine, Core;
    var rest := chunks[1..];
    assert chunks[..k][1..] == rest[..k - 1];
    assert p + Stream(chunks[..k]) == p + chunks[0] + Stream(rest[..k - 1]);
    SameLine(p, chunks[0], Stream(rest[..k - 1]));
    assert FirstLine(p) == None by { NoneBefore(p, Stream(chunks[..k - 1])); }
    if k > 1 {
      assert chunks[..k - 1][1..] == rest[..k - 2];
      assert p + Stream(chunks[..k - 1]) == p + chunks[0] + Stream(rest[..k - 2]);
      SameLine(p, chunks[0], Stream(rest[..k - 2]));
    }
  }

  lemma SameLine(p: seq<Byte>, c: seq<Byte>, x: seq<Byte>)
    ensures FirstLine(Core(p) + c + x) == FirstLine(p + c + x) && Core(Core(p) + c + x) == Core(p + c + x)
  {
    CoreOfCore(p, c + x);
    assert Core(p) + c + x == Core(p) + (c + x) && p + c + x == p + (c + x);
  }

  lemma NoneBefore(p: seq<Byte>, x: seq<Byte>)
    requires FirstLine(p + x) == None
    ensures FirstLine(p) == None
  {
    if FirstLine(p).Some? { TerminatedCore(p, x); }
  }

  /**
   A first line within the limit is received exactly when, in the bytes read up to the chunk that terminates it, only
   separators follow it; otherwise the loop rejects the extra input.
   */
  lemma {:induction false} DecidedWhenTerminated(a: Acc, chunks: seq<seq<Byte>>, limit: nat, k: nat)
    requires ValidAcc(a) && a.scan <= limit && FirstTerminated(a.pending, chunks, k)
    requires |FirstLine(a.pending + Stream(chunks[..k])).value| <= limit
    ensures var seen := a.pending + Stream(chunks[..k]);
            Recv(a, chunks, limit).1 ==
            if OnlyLine(seen) then Received(FirstLine(seen).value, |FirstLine(seen).value| + 1) else Rejected(ExtraLine)
    decreases k
  {
    hide Recv, TakeOutcome, TakeFrom, FirstTerminated, FirstLine, OnlyLine, Core, AppendTo;
    NowTerminated(a.pending, chunks, k);
    if k == 0 {
      assert a.pending + Stream(chunks[..0]) == a.pending;
      DecidedNow(a, chunks, limit);
    } else {
      var b := AppendTo(TakeFrom(a, limit), chunks[0]);
      NextChunk(a, chunks, limit, k);
      DecidedWhenTerminated(b, chunks[1..], limit, k - 1);
    }
  }

  lemma NowTerminated(p: seq<Byte>, chunks: seq<seq<Byte>>, k: nat)
    requires FirstTerminated(p, chunks, k)
    ensures FirstLine(p + Stream(chunks[..k])).Some? && (k > 0 ==> chunks != [])
  {
  }

  /** What the terminated first line and the bytes after it make of a scan. */
  lemma DecidedNow(a: Acc, chunks: seq<seq<Byte>>, limit: nat)
    requires ValidAcc(a) && FirstLine(a.pending).Some? && |FirstLine(a.pending).value| <= limit
    ensures Recv(a, chunks, limit).1 ==
            if OnlyLine(a.pending) then Received(FirstLine(a.pending).value, |FirstLine(a.pending).value| + 1)
            else Rejected(ExtraLine)
  {
    hide TakeFrom;
    LeadIsSepPrefix(a);
  }

  /** A chunk before the terminating one is appended to what was seen, less leading separators. */
  lemma NextChunk(a: Acc, chunks: seq<seq<Byte>>, limit: nat, k: nat)
    requires ValidAcc(a) && a.scan <= limit && FirstTerminated(a.pending, chunks, k) && k > 0
    requires |FirstLine(a.pending + Stream(chunks[..k])).value| <= limit
    ensures ValidAcc(TakeFrom(a, limit))
    ensures var b := AppendTo(TakeFrom(a, limit), chunks[0]);
            && ValidAcc(b) && b.scan <= limit && FirstTerminated(b.pending, chunks[1..], k - 1)
            && Recv(a, chunks, limit).1 == Recv(b, chunks[1..], limit).1
            && FirstLine(b.pending + Stream(chunks[1..][..k - 1])) == FirstLine(a.pending + Stream(chunks[..k]))
            && (OnlyLine(b.pending + Stream(chunks[1..][..k - 1])) <==> OnlyLine(a.pending + Stream(chunks[..k])))
  {
    TerminatedLater(a.pending, chunks, k);
    assert FirstLine(a.pending + Stream(chunks[..k])).Some?;
    NotYet(a, limit, Stream(chunks[..k]));
    IncompleteTells(a, limit);
    AppendValid(TakeFrom(a, limit), chunks[0]);
    hide Core, SepPrefix, BodyLength, TakeOutcome, TakeFrom, Tells, FirstTerminated;
  }

  const TwoLines: seq<Byte> := [65, 13, 66, 13]

  /** One stream, two results: the extra line is seen when it comes with the first one, and left for later otherwise. */
  lemma TheCutDecides()
    ensures Recv(Fresh, [TwoLines], 10).1 == Rejected(ExtraLine)
    ensures Recv(Fresh, [TwoLines[..2], TwoLines[2..]], 10).1 == Received([65], 2)
  {
    hide Recv, FirstLine, OnlyLine;
    LinesOfTwo();
    OneChunk(TwoLines, [], 10);
    assert [TwoLines] + [] == [TwoLines];
    OneChunk(TwoLines[..2], [TwoLines[2..]], 10);
    assert [TwoLines[..2]] + [TwoLines[2..]] == [TwoLines[..2], TwoLines[2..]];
  }

  /** The first chunk terminates the first line. */
  lemma OneChunk(c: seq<Byte>, rest: seq<seq<Byte>>, limit: nat)
    requires c != [] && FirstLine(c).Some? && FirstLine([]) == None && |FirstLine(c).value| <= limit
    ensures Recv(Fresh, [c] + rest, limit).1 ==
            if OnlyLine(c) then Received(FirstLine(c).value, |FirstLine(c).value| + 1) else Rejected(ExtraLine)
  {
    hide Recv, FirstLine, OnlyLine;
    var chunks := [c] + rest;
    assert chunks[..1] == [c] && chunks[..0] == [];
    assert Stream([c]) == c && [] + c == c;
    assert [] + Stream([]) == [];
    assert Fresh.pending == [];
    DecidedWhenTerminated(Fresh, chunks, limit, 1);
  }

  lemma LinesOfTwo()
    ensures FirstLine([]) == None
    ensures FirstLine(TwoLines) == Some([65]) && !OnlyLine(TwoLines)
    ensures FirstLine(TwoLines[..2]) == Some([65]) && OnlyLine(TwoLines[..2])
  {
    SepPrefixIs(TwoLines, 0);
    SepPrefixIs(TwoLines[..2], 0);
    BodyLengthIs(TwoLines, 1);
    BodyLengthIs(TwoLines[..2], 1);
    assert TwoLines[..2][..1] == [65] == TwoLines[..1];
    assert TwoLines[1..][1] == 66;
  }
}
