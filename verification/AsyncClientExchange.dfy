/** The events of an exchange keep the invariant: sending, reading the reply, and deciding what the reply means. */
module AsyncClientExchange {
  import opened Wrappers
  import opened Accumulator
  import opened LineReceiver
  import opened AsyncClient
  import opened AsyncClientRuns
  import opened AsyncClientSteps
  import Runs = AsyncAdmissionRuns

  // ---------------------------------------------------------------- moving on inside a turn

  function AtStage(s: State, t: nat, stage: Stage): State
    requires t in s.calls
  {
    s.(calls := s.calls[t := s.calls[t].(stage := stage)])
  }

  lemma StageTurns(s: State, s': State, t: nat)
    requires Turns(s) && t in s.calls && InTurn(s.calls[t].stage)
    requires s'.turns == s.turns && t in s'.calls && InTurn(s'.calls[t].stage) && s'.calls == s.calls[t := s'.calls[t]]
    ensures Turns(s')
    ensures Current(s') == if Exchanging(s'.calls[t].stage) then Some(s'.calls[t].stage.req) else None
  {
    hide Runs.Inv;
    OnlyOneInTurn(s, t);
  }

  /** A call waits for its connection, or for the reply once its request is drained. */
  lemma StageKeeps(s: State, t: nat, stage: Stage)
    requires Inv(s) && t in s.calls
    requires || (s.calls[t].stage.Ready? && stage.Connecting? && s.live == None && s.calls[t].op.Connect?)
             || (s.calls[t].stage.Draining? && stage == Receiving(s.calls[t].stage.req))
    ensures Inv(AtStage(s, t, stage))
  {
    hide Runs.Inv, Books, Memory, Monitors, LiveStream;
    var s' := AtStage(s, t, stage);
    ActingFrom(s, t);
    StageTurns(s, s', t);
    hide Turns;
    StageBooks(s, t, stage, Current(s));
    StageMemory(s, t, stage, Current(s));
    assert Transports(s', Current(s));
    WorldLine(s, s', Current(s));
  }

  lemma WorldLine(s: State, s': State, current: Option<nat>)
    requires s' == s.(calls := s'.calls) && LiveStream(s, current) && Monitors(s)
    ensures LiveStream(s', current) && Monitors(s')
  {
    assert LiveStream(s', current);
  }

  lemma StageBooks(s: State, t: nat, stage: Stage, current: Option<nat>)
    requires Books(s, current) && t in s.calls
    requires || (s.calls[t].stage.Ready? && stage.Connecting?)
             || (s.calls[t].stage.Draining? && stage == Receiving(s.calls[t].stage.req))
    ensures Books(AtStage(s, t, stage), current)
  {
    hide Requests, Inboxes, Logged, Correlated, Results, Outcomes, Stale;
    var s' := AtStage(s, t, stage);
    StageRequests(s, t, stage);
    LogFrame(s, s');
    StageResults(s, t, stage);
    StageOutcomes(s, t, stage, current);
  }

  lemma StageResults(s: State, t: nat, stage: Stage)
    requires Results(s) && t in s.calls && InTurn(s.calls[t].stage) && InTurn(stage)
    ensures Results(AtStage(s, t, stage))
  {
    hide Results;
    ResultsFrame(s, AtStage(s, t, stage));
  }

  lemma StageOutcomes(s: State, t: nat, stage: Stage, current: Option<nat>)
    requires Outcomes(s) && Stale(s, current) && t in s.calls && InTurn(s.calls[t].stage) && InTurn(stage)
    ensures Outcomes(AtStage(s, t, stage)) && Stale(AtStage(s, t, stage), current)
  {
    hide Truthful;
    var s' := AtStage(s, t, stage);
    forall u: nat | u in s'.calls && s'.calls[u].stage.Over?
      ensures Truthful(s', s'.calls[u], s'.calls[u].stage.outcome)
    {
      TruthfulFrame(s, s', s.calls[u], s.calls[u].stage.outcome);
    }
  }

  lemma TruthfulFrame(s: State, s': State, call: Call, outcome: Outcome)
    requires Truthful(s, call, outcome) && s'.requests == s.requests
    ensures Truthful(s', call, outcome)
  {
  }

  lemma LogFrame(s: State, s': State)
    requires Inboxes(s) && Logged(s) && Correlated(s)
    requires s'.requests == s.requests && s'.conns == s.conns && s'.log == s.log
    ensures Inboxes(s') && Logged(s') && Correlated(s')
  {
  }

  lemma StageRequests(s: State, t: nat, stage: Stage)
    requires Requests(s) && t in s.calls
    requires || (s.calls[t].stage.Ready? && stage.Connecting?)
             || (s.calls[t].stage.Draining? && stage == Receiving(s.calls[t].stage.req))
    ensures Requests(AtStage(s, t, stage))
  {
    hide Next, StateChanging;
  }

  lemma StageMemory(s: State, t: nat, stage: Stage, current: Option<nat>)
    requires Memory(s, current) && t in s.calls && InTurn(s.calls[t].stage) && InTurn(stage)
    ensures Memory(AtStage(s, t, stage), current)
  {
    var s' := AtStage(s, t, stage);
    forall u: nat ensures SameEffect(s, s', u) {}
    ReplayMore(s, s');
    if Quiet(s') {
      forall u: nat | u in s.calls ensures !Doubtful(s.calls[u]) { assert u in s'.calls; }
    }
    CalmBefore(s, s');
    hide Serial, Replay;
    SerialMore(s, s');
  }

  // ---------------------------------------------------------------- sending

  /** Separators left over on an idle stream are discarded, and nothing else is there. */
  lemma IdleDiscard(s: State)
    requires LiveStream(s, None) && s.live.Some?
    ensures var c := s.live.value;
            var (rx, more) := DiscardFrom(AppendTo(s.rx, s.conns[c].arrived));
            !more && ValidAcc(rx) && rx.pending == [] && AllSep(s.conns[c].wire) && s.conns[c].inbox == []
  {
    var c := s.live.value;
    var arrived, wire := s.conns[c].arrived, s.conns[c].wire;
    assert StreamOf(s, c) == arrived + wire;
    assert forall i :: 0 <= i < |arrived| ==> arrived[i] == (arrived + wire)[i];
    assert forall i :: 0 <= i < |wire| ==> wire[i] == (arrived + wire)[|arrived| + i];
    assert AppendTo(s.rx, arrived).pending == arrived;
    SepPrefixIs(arrived, |arrived|);
  }

  /** The request is written and its task awaits the drain. */
  function Sending(s: State, t: nat, c: Command, rx: Acc): State
    requires t in s.calls && s.live.Some? && s.live.value < |s.conns|
  {
    var conn, r := s.live.value, |s.requests|;
    s.(rx := rx,
       conns := s.conns[conn := Conn([r], s.conns[conn].wire, [])],
       requests := s.requests + [Request(c, conn, t, Sent, None)],
       calls := s.calls[t := s.calls[t].(stage := Draining(r),
                                         write := if StateChanging(c) then Some(r) else s.calls[t].write)])
  }

  lemma SendRequests(s: State, t: nat, c: Command, rx: Acc)
    requires Requests(s) && t in s.calls && s.calls[t].stage.Ready? && Next(s.calls[t].op, s.calls[t].got) == Some(c)
    requires s.live.Some? && s.live.value < |s.conns|
    ensures Requests(Sending(s, t, c, rx))
  {
    hide Next, Writes;
  }

  lemma SendLog(s: State, t: nat, c: Command, rx: Acc)
    requires Logged(s) && Correlated(s) && t in s.calls && s.live.Some? && s.live.value < |s.conns|
    ensures Logged(Sending(s, t, c, rx)) && Correlated(Sending(s, t, c, rx))
  {
    hide Answered;
  }

  lemma SendResults(s: State, t: nat, c: Command, rx: Acc)
    requires Results(s) && t in s.calls && s.calls[t].stage.Ready? && s.live.Some? && s.live.value < |s.conns|
    ensures Results(Sending(s, t, c, rx))
  {
    hide Results;
    ResultsFrame(s, Sending(s, t, c, rx));
  }

  lemma SendOutcomes(s: State, t: nat, c: Command, rx: Acc)
    requires Outcomes(s) && t in s.calls && s.calls[t].stage.Ready? && s.live.Some? && s.live.value < |s.conns|
    ensures Outcomes(Sending(s, t, c, rx))
  {
  }

  lemma SendBooks(s: State, t: nat, c: Command, rx: Acc)
    requires Books(s, None) && t in s.calls && s.calls[t].stage.Ready? && Next(s.calls[t].op, s.calls[t].got) == Some(c)
    requires s.live.Some? && s.live.value < |s.conns| && s.conns[s.live.value].inbox == []
    ensures Books(Sending(s, t, c, rx), Some(|s.requests|))
  {
    var s' := Sending(s, t, c, rx);
    SendRequests(s, t, c, rx);
    SendLog(s, t, c, rx);
    hide Requests, Logged, Correlated, Results;
    SendResults(s, t, c, rx);
    SendOutcomes(s, t, c, rx);
    SendInboxes(s, t, c, rx);
    SendStale(s, t, c, rx);
    hide Outcomes, Inboxes, Stale;
  }

  lemma SendInboxes(s: State, t: nat, c: Command, rx: Acc)
    requires Inboxes(s) && t in s.calls && s.live.Some? && s.live.value < |s.conns| && s.conns[s.live.value].inbox == []
    ensures Inboxes(Sending(s, t, c, rx))
  {
  }

  lemma SendStale(s: State, t: nat, c: Command, rx: Acc)
    requires Stale(s, None) && t in s.calls && s.calls[t].stage.Ready? && s.live.Some? && s.live.value < |s.conns|
    ensures Stale(Sending(s, t, c, rx), Some(|s.requests|))
  {
  }

  lemma SendMemory(s: State, t: nat, c: Command, rx: Acc)
    requires Memory(s, None) && Requests(s) && t in s.calls && s.calls[t].stage.Ready? && Inside(s.turns) == Some(t)
    requires s.live.Some? && s.live.value < |s.conns|
    ensures Memory(Sending(s, t, c, rx), Some(|s.requests|))
  {
    hide Honest, Next;
    var s' := Sending(s, t, c, rx);
    forall u: nat ensures SameEffect(s, s', u) {}
    ReplayMore(s, s');
    if Quiet(s') {
      forall u: nat | u in s.calls ensures !Doubtful(s.calls[u]) { assert u in s'.calls; }
    }
    CalmBefore(s, s');
    hide Serial, Replay;
    SerialMore(s, s');
  }

  lemma SendStream(s: State, t: nat, c: Command, rx: Acc)
    requires LiveStream(s, None) && Monitors(s) && Transports(s, None) && t in s.calls && s.calls[t].stage.Ready?
    requires s.live.Some? && ValidAcc(rx) && rx.pending == [] && AllSep(s.conns[s.live.value].wire)
    ensures var s', r := Sending(s, t, c, rx), |s.requests|;
            LiveStream(s', Some(r)) && Monitors(s') && Transports(s', Some(r))
  {
    var s', r := Sending(s, t, c, rx), |s.requests|;
    assert StreamOf(s', s.live.value) == s.conns[s.live.value].wire;
    assert LiveStream(s', Some(r));
    assert s'.requests[..r] == s.requests;
    assert Monitors(s');
  }

  lemma BeginIsSending(s: State, t: nat, c: Command)
    requires WellFormed(s) && s.live.Some? && t in s.calls && t in s.turns.holder
    requires s.conns[s.live.value].inbox == []
    requires !DiscardFrom(AppendTo(s.rx, s.conns[s.live.value].arrived)).1
    ensures Begin(s, t, c) == Sending(s, t, c, DiscardFrom(AppendTo(s.rx, s.conns[s.live.value].arrived)).0)
  {
    hide DiscardFrom, AppendTo;
    var conn, r := s.live.value, |s.requests|;
    assert s.conns[conn].inbox + [r] == [r];
    var conns := s.conns[conn := s.conns[conn].(arrived := [])];
    assert conns[conn := Conn([r], s.conns[conn].wire, [])] == s.conns[conn := Conn([r], s.conns[conn].wire, [])];
  }

  /** A call that has sent nothing may fail before sending anything. */
  lemma UnsentKeeps(s: State, t: nat, outcome: Outcome)
    requires Inv(s) && t in s.calls && t in s.turns.holder
    requires s.calls[t].stage.Ready? || s.calls[t].stage.Connecting?
    requires outcome.Failed? || (outcome.Success? && !Writes(s.calls[t].op) && Returned(s, t, outcome))
    ensures Inv(Finish(s, t, outcome))
  {
    hide Turns, Books, LiveStream, Monitors, Memory, Backed, Inv;
    UnsentFacts(s, t);
    FinishKeeps(s, t, None, outcome);
  }

  lemma UnsentFacts(s: State, t: nat)
    requires Inv(s) && t in s.calls && (s.calls[t].stage.Ready? || s.calls[t].stage.Connecting?)
    ensures Acting(s, t, None) && LiveStream(s, None) && Memory(s, None) && Monitors(s) && s.calls[t].write == None
  {
    hide Inboxes, Logged, Correlated, Results, Outcomes, Stale, LiveStream, Monitors, Memory, Transports;
    ActingFrom(s, t);
    UnsentHasNoWrite(s, t);
  }

  lemma UnsentHasNoWrite(s: State, t: nat)
    requires Requests(s) && t in s.calls && (s.calls[t].stage.Ready? || s.calls[t].stage.Connecting?)
    ensures s.calls[t].write == None
  {
  }

  lemma BeginKeeps(s: State, t: nat, c: Command)
    requires Inv(s) && WellFormed(s) && t in s.calls && t in s.turns.holder && s.calls[t].stage.Ready?
    requires Next(s.calls[t].op, s.calls[t].got) == Some(c)
    ensures Inv(Begin(s, t, c))
  {
    hide Inv, Begin;
    if s.live == None {
      UnsentKeeps(s, t, Failed(NotConnected));
      assert Begin(s, t, c) == Finish(s, t, Failed(NotConnected)) by { BeginUnconnected(s, t, c); }
    } else {
      ReadyFacts(s, t);
      IdleDiscard(s);
      hide LiveStream, DiscardFrom, AppendTo;
      BeginIsSending(s, t, c);
      SendKeeps(s, t, c, DiscardFrom(AppendTo(s.rx, s.conns[s.live.value].arrived)).0);
    }
  }

  lemma BeginUnconnected(s: State, t: nat, c: Command)
    requires t in s.calls && t in s.turns.holder && WellFormed(s) && s.live == None
    ensures Begin(s, t, c) == Finish(s, t, Failed(NotConnected))
  {
  }

  /** A call about to run its next exchange finds the system idle. */
  lemma ReadyFacts(s: State, t: nat)
    requires Inv(s) && t in s.calls && s.calls[t].stage.Ready?
    ensures Turns(s) && Current(s) == None && Rest(s, None)
  {
    ActingFrom(s, t);
    hide Rest, Turns;
  }

  lemma SendKeeps(s: State, t: nat, c: Command, rx: Acc)
    requires Turns(s) && Rest(s, None) && t in s.calls && s.calls[t].stage.Ready?
    requires Next(s.calls[t].op, s.calls[t].got) == Some(c)
    requires s.live.Some? && s.live.value < |s.conns| && s.conns[s.live.value].inbox == []
    requires ValidAcc(rx) && rx.pending == [] && AllSep(s.conns[s.live.value].wire)
    ensures Inv(Sending(s, t, c, rx))
  {
    hide Runs.Inv, Requests, Inboxes, Logged, Correlated, Results, Outcomes, Stale, LiveStream, Monitors, Memory;
    hide Transports, Next;
    var s' := Sending(s, t, c, rx);
    OnlyOneInTurn(s, t);
    StageTurns(s, s', t);
    hide Turns, Inside;
    SendBooks(s, t, c, rx);
    SendMemory(s, t, c, rx);
    SendStream(s, t, c, rx);
  }

  // ---------------------------------------------------------------- what a scan finds on the live stream

  lemma AllSepParts(p: seq<Byte>, x: seq<Byte>)
    ensures AllSep(p + x) <==> AllSep(p) && AllSep(x)
  {
    assert forall i :: 0 <= i < |p| ==> p[i] == (p + x)[i];
    assert forall i :: 0 <= i < |x| ==> x[i] == (p + x)[|p| + i];
  }

  lemma NoCore(p: seq<Byte>)
    requires AllSep(p)
    ensures Core(p) == []
  {
    SepPrefixIs(p, |p|);
  }

  /** A line found at the front of a stream that holds only one line is that line, and the rest are separators. */
  lemma LineFound(a: Acc, limit: nat, x: seq<Byte>)
    requires ValidAcc(a) && TakeOutcome(a, limit).Line? && OnlyLine(a.pending + x)
    ensures TakeOutcome(a, limit).line == Body(a.pending + x) && AllSep(x)
  {
    LeadIsSepPrefix(a);
    LineOfCore(a.pending, x);
  }

  lemma LineOfCore(p: seq<Byte>, x: seq<Byte>)
    requires BodyLength(Core(p)) < |Core(p)| && OnlyLine(p + x)
    ensures Core(p)[..BodyLength(Core(p))] == Body(p + x) && AllSep(x)
  {
    var q := Core(p);
    var i := BodyLength(q);
    CoreExtend(p, x);
    BodyExtend(q, x);
    assert (q + x)[..i] == q[..i];
    assert (q + x)[i..] == q[i..] + x;
    AllSepParts(q[i..], x);
  }

  /** Separators alone are never a line. */
  lemma NoLineFound(a: Acc, limit: nat, x: seq<Byte>)
    requires ValidAcc(a) && AllSep(a.pending + x)
    ensures TakeOutcome(a, limit) == Incomplete && AllSep(TakeFrom(a, limit).pending + x)
  {
    AllSepParts(a.pending, x);
    LeadIsSepPrefix(a);
    NoCore(a.pending);
    TakeFromValid(a, limit);
    assert [] + x == x;
  }

  /** An incomplete scan leaves the stream the same but for leading separators. */
  lemma StillOneLine(a: Acc, limit: nat, x: seq<Byte>)
    requires ValidAcc(a) && TakeOutcome(a, limit) == Incomplete && OnlyLine(a.pending + x)
    ensures OnlyLine(TakeFrom(a, limit).pending + x) && Body(TakeFrom(a, limit).pending + x) == Body(a.pending + x)
  {
    LeadIsSepPrefix(a);
    TakeFromValid(a, limit);
    var p := a.pending;
    CoreExtend(p, x);
    if Core(p) != [] {
      SepPrefixIs(Core(p) + x, 0);
    } else {
      assert Core(p) + x == x;
    }
  }

  // ---------------------------------------------------------------- reading a chunk

  /** The state after the chunk was taken from the reader and scanned. */
  function AfterScan(s: State, r: nat, size: nat): State
    requires WellFormed(s) && r < |s.requests| && s.requests[r].conn < |s.conns|
    requires size <= |s.conns[s.requests[r].conn].arrived|
  {
    var conn := s.requests[r].conn;
    var arrived := s.conns[conn].arrived;
    s.(conns := s.conns[conn := s.conns[conn].(arrived := arrived[size..])],
       rx := TakeFrom(Appended(s, r, size), Limit(s.requests[r].command)))
  }

  function Appended(s: State, r: nat, size: nat): (a: Acc)
    requires WellFormed(s) && r < |s.requests| && s.requests[r].conn < |s.conns|
    requires size <= |s.conns[s.requests[r].conn].arrived|
    ensures ValidAcc(a)
  {
    AppendValid(s.rx, s.conns[s.requests[r].conn].arrived[..size]);
    AppendTo(s.rx, s.conns[s.requests[r].conn].arrived[..size])
  }

  lemma AppendedStream(s: State, r: nat, size: nat)
    requires WellFormed(s) && r < |s.requests| && s.requests[r].conn < |s.conns|
    requires size <= |s.conns[s.requests[r].conn].arrived|
    ensures var c := s.conns[s.requests[r].conn];
            Appended(s, r, size).pending + (c.arrived[size..] + c.wire) == StreamOf(s, s.requests[r].conn)
  {
    var c := s.conns[s.requests[r].conn];
    assert c.arrived[..size] + c.arrived[size..] == c.arrived;
    assert Appended(s, r, size).pending == s.rx.pending + c.arrived[..size];
  }

  lemma ScannedActing(s: State, t: nat, r: nat, size: nat)
    requires Acting(s, t, Some(r)) && WellFormed(s) && Memory(s, Some(r)) && s.requests[r].conn < |s.conns|
    requires size <= |s.conns[s.requests[r].conn].arrived|
    ensures var s' := AfterScan(s, r, size);
            Acting(s', t, Some(r)) && WellFormed(s') && Memory(s', Some(r))
  {
    hide Memory, Runs.Inv, Books;
    var s' := AfterScan(s, r, size);
    TakeFromValid(Appended(s, r, size), Limit(s.requests[r].command));
    hide TakeFrom, Appended;
    MemoryFrame(s, s', Some(r));
    BooksFrame(s, s', Some(r));
    assert Turns(s');
  }

  /** Reading on: the stream is what it was, less leading separators. */
  lemma ScannedStream(s: State, r: nat, size: nat)
    requires LiveStream(s, Some(r)) && s.live.Some? && r < |s.requests| && s.requests[r].conn < |s.conns|
    requires size <= |s.conns[s.requests[r].conn].arrived|
    requires TakeOutcome(Appended(s, r, size), Limit(s.requests[r].command)) == Incomplete
    ensures LiveStream(AfterScan(s, r, size), Some(r))
  {
    var s', c := AfterScan(s, r, size), s.conns[s.requests[r].conn];
    var a, limit, x := Appended(s, r, size), Limit(s.requests[r].command), c.arrived[size..] + c.wire;
    AppendedStream(s, r, size);
    TakeFromValid(a, limit);
    assert StreamOf(s', s.requests[r].conn) == TakeFrom(a, limit).pending + x;
    hide TakeFrom, TakeOutcome, Appended, AppendTo, Core, OnlyLine, Body;
    match s.requests[r].status
    case Sent => NoLineFound(a, limit, x);
    case Served(_, _, _) => StillOneLine(a, limit, x);
  }

  lemma LineEmpties(a: Acc, limit: nat)
    requires ValidAcc(a) && TakeOutcome(a, limit).Line?
    ensures ValidAcc(TakeFrom(a, limit)) && TakeFrom(a, limit).pending == []
  {
    TakeFromValid(a, limit);
  }

  /** A line accepted on the live stream: the request was served, and the line is its reply. */
  lemma LineAnswers(s: State, r: nat, size: nat)
    requires LiveStream(s, Some(r)) && s.live.Some? && r < |s.requests| && s.requests[r].conn < |s.conns|
    requires size <= |s.conns[s.requests[r].conn].arrived|
    requires TakeOutcome(Appended(s, r, size), Limit(s.requests[r].command)).Line?
    ensures s.requests[r].status.Served?
    ensures TakeOutcome(Appended(s, r, size), Limit(s.requests[r].command)).line == Body(s.requests[r].status.reply)
    ensures LiveStream(AfterScan(s, r, size), None)
  {
    var s', c := AfterScan(s, r, size), s.conns[s.requests[r].conn];
    var a, limit, x := Appended(s, r, size), Limit(s.requests[r].command), c.arrived[size..] + c.wire;
    AppendedStream(s, r, size);
    hide Core, OnlyLine, Body, AppendTo, Appended, Lead;
    LineEmpties(a, limit);
    assert StreamOf(s', s.requests[r].conn) == x;
    hide TakeFrom, TakeOutcome, AllSep;
    if s.requests[r].status == Sent {
      NoLineFound(a, limit, x);
    }
    LineFound(a, limit, x);
  }

  // ---------------------------------------------------------------- what the reply means

  function Recorded(s: State, r: nat, line: seq<Byte>): State
    requires r < |s.requests|
  {
    s.(requests := s.requests[r := s.requests[r].(line := Some(line))])
  }

  lemma RecordedRequests(s: State, r: nat, line: seq<Byte>)
    requires Requests(s) && r < |s.requests|
    ensures Requests(Recorded(s, r, line))
  {
    hide Next, StateChanging;
  }

  lemma RecordedCorrelated(s: State, r: nat, line: seq<Byte>)
    requires Correlated(s) && r < |s.requests| && s.requests[r].status.Served?
    requires line == Body(s.requests[r].status.reply)
    ensures Correlated(Recorded(s, r, line))
  {
    hide Honest;
  }

  lemma RecordedResults(s: State, r: nat, line: seq<Byte>)
    requires Results(s) && r < |s.requests| && (s.requests[r].line.Some? ==> s.requests[r].line.value == line)
    ensures Results(Recorded(s, r, line))
  {
    hide Results;
    ResultsFrame(s, Recorded(s, r, line));
  }

  lemma RecordedBooks(s: State, r: nat, line: seq<Byte>)
    requires Books(s, Some(r)) && r < |s.requests| && s.requests[r].status.Served?
    requires line == Body(s.requests[r].status.reply)
    ensures Books(Recorded(s, r, line), Some(r))
  {
    hide Requests, Judge, Body, StateChanging, Results, Honest;
    RecordedRequests(s, r, line);
    RecordedResults(s, r, line);
    RecordedCorrelated(s, r, line);
    hide Correlated;
    var s' := Recorded(s, r, line);
    assert Inboxes(s') && Logged(s');
    assert Outcomes(s') && Stale(s', Some(r));
  }

  lemma RecordedMemory(s: State, t: nat, r: nat, line: seq<Byte>)
    requires Memory(s, Some(r)) && Turns(s) && Requests(s) && t in s.calls
    requires Exchanging(s.calls[t].stage) && s.calls[t].stage.req == r && r < |s.requests|
    requires s.requests[r].status.Served?
    ensures Memory(Recorded(s, r, line), Some(r))
  {
    hide Turns, Requests, Serial, Replay, Snapshot;
    var s' := Recorded(s, r, line);
    forall u: nat ensures SameEffect(s, s', u) {}
    ReplayMore(s, s');
    CalmBefore(s, s');
    RecordedSnapshot(s, t, r);
    SnapshotFrame(s, s', s.requests[r], s'.requests[r]);
    SerialMore(s, s');
  }

  /** The reads of a call in its turn are served from what the operations granted before it left. */
  lemma RecordedSnapshot(s: State, t: nat, r: nat)
    requires Replayed(s, Some(r)) && Turns(s) && Requests(s) && t in s.calls
    requires Exchanging(s.calls[t].stage) && s.calls[t].stage.req == r && r < |s.requests|
    requires s.requests[r].status.Served?
    ensures Calm(s) && s.requests[r].command.ReadWord? ==> Snapshot(s, s.requests[r])
  {
    hide Runs.Inv, Calm;
    FlightWrite(s, t);
    OnlyOneInTurn(s, t);
    GrantsIncrease(s);
    hide Turns, Requests;
    var granted := s.turns.granted;
    if Calm(s) && s.requests[r].command.ReadWord? {
      assert !Effective(s, t);
      assert Before(granted, t) == granted[..|granted| - 1];
    }
  }

  lemma GrantsIncrease(s: State)
    requires Turns(s)
    ensures Runs.Increasing(s.turns.granted)
  {
  }

  lemma SnapshotFrame(s: State, s': State, q: Request, q': Request)
    requires s'.origin == s.origin && s'.turns.granted == s.turns.granted && q'.status == q.status
    requires q'.ticket == q.ticket
    requires forall t: nat :: SameEffect(s, s', t)
    ensures Snapshot(s, q) ==> Snapshot(s', q')
  {
    ReplayFrame(s, s', Before(s.turns.granted, q.ticket));
  }

  /** The registered monitors are those confirmed before the last request `r`. */
  ghost predicate Unremembered(s: State, r: nat) {
    && r == |s.requests| - 1
    && s.bits == LastBits(s.requests[..r], s.live) && s.words == LastWords(s.requests[..r], s.live)
  }

  /** The accepted reply of the exchange `r`, not yet decoded: the stream is idle again. */
  ghost predicate Replied(s: State, t: nat, r: nat) {
    && Acting(s, t, Some(r)) && WellFormed(s) && LiveStream(s, None) && Memory(s, Some(r))
    && Exchanging(s.calls[t].stage) && s.calls[t].stage.req == r
    && s.requests[r].status.Served? && s.requests[r].line == Some(Body(s.requests[r].status.reply))
    && s.live == Some(s.requests[r].conn) && !OwnerInvalidated(s)
  }

  lemma ReplyRecorded(s: State, t: nat, r: nat, line: seq<Byte>)
    requires Acting(s, t, Some(r)) && WellFormed(s) && LiveStream(s, None) && Memory(s, Some(r))
    requires Exchanging(s.calls[t].stage) && s.calls[t].stage.req == r
    requires s.requests[r].status.Served? && line == Body(s.requests[r].status.reply)
    requires s.live == Some(s.requests[r].conn) && !OwnerInvalidated(s)
    ensures Replied(Recorded(s, r, line), t, r)
  {
    hide Memory, Runs.Inv, Monitors, Requests, Inboxes, Logged, Correlated, Results, Outcomes, Stale;
    RecordedBooks(s, r, line);
    RecordedMemory(s, t, r, line);
    hide Books;
    var s' := Recorded(s, r, line);
    assert Turns(s');
    assert LiveStream(s', None);
  }

  /** A call in an exchange has sent a state-changing request exactly when the exchange is one. */
  lemma FlightWrite(s: State, t: nat)
    requires Requests(s) && t in s.calls && Exchanging(s.calls[t].stage)
    ensures var r := s.calls[t].stage.req;
            && r < |s.requests| && s.requests[r].ticket == t
            && (StateChanging(s.requests[r].command) <==> s.calls[t].write.Some?)
            && (s.calls[t].write.Some? ==> s.calls[t].write == Some(r))
            && Next(s.calls[t].op, s.calls[t].got) == Some(s.requests[r].command)
  {
  }

  lemma MemoryIdle(s: State, current: Option<nat>)
    requires Memory(s, current)
    ensures Memory(s, None)
  {
  }

  lemma RaiseReply(s: State, t: nat, r: nat, reason: Reason)
    requires Replied(s, t, r)
    ensures Inv(Raise(s, t, reason, StateChanging(s.requests[r].command)))
  {
    FlightWrite(s, t);
    hide Books, Memory, Turns, LiveStream, Monitors, Inv;
    MemoryIdle(s, Some(r));
    RaiseKeeps(s, t, Some(r), reason, StateChanging(s.requests[r].command));
  }

  lemma RefusedTruthful(s: State, t: nat, r: nat)
    requires Replied(s, t, r) && Judge(s.requests[r].command, s.requests[r].line.value).Refused?
    ensures Truthful(s, s.calls[t], PlcError)
  {
    hide Memory, Turns, LiveStream, Monitors, Judge, OnlyLine, Body, Results;
    FlightWrite(s, t);
  }

  lemma RefusedReply(s: State, t: nat, r: nat)
    requires Replied(s, t, r) && Judge(s.requests[r].command, s.requests[r].line.value).Refused? && Unremembered(s, r)
    ensures Inv(Finish(s, t, PlcError))
  {
    hide Books, Memory, Turns, LiveStream, Monitors, Inv, Judge, Truthful, Unremembered, Body;
    RefusedTruthful(s, t, r);
    RefusedMonitors(s, r);
    MemoryIdle(s, Some(r));
    FinishKeeps(s, t, Some(r), PlcError);
  }

  /** A refused registration changes nothing. */
  lemma RefusedMonitors(s: State, r: nat)
    requires Unremembered(s, r) && s.requests[r].line.Some?
    requires Judge(s.requests[r].command, s.requests[r].line.value).Refused?
    ensures Monitors(s)
  {
    hide Judge;
  }

  /** A confirmed registration on the live connection is the last one. */
  lemma RememberMonitors(s: State, r: nat)
    requires Unremembered(s, r) && s.live == Some(s.requests[r].conn) && s.requests[r].line.Some?
    requires Judge(s.requests[r].command, s.requests[r].line.value).Accepted?
    ensures Monitors(Remember(s, s.requests[r].command))
  {
    hide Judge;
  }

  lemma RememberReply(s: State, t: nat, r: nat)
    requires Replied(s, t, r) && Judge(s.requests[r].command, s.requests[r].line.value).Accepted?
    ensures Replied(Remember(s, s.requests[r].command), t, r)
  {
    hide Turns, Books, Memory, Judge, Answered;
    var s' := Remember(s, s.requests[r].command);
    MemoryFrame(s, s', Some(r));
    BooksFrame(s, s', Some(r));
    TurnsFrame(s, s');
    assert LiveStream(s', None);
  }

  lemma TurnsFrame(s: State, s': State)
    requires Turns(s) && s'.turns == s.turns && s'.calls == s.calls
    ensures Turns(s') && Current(s') == Current(s)
  {
    hide Runs.Inv;
  }

  lemma SuccessTruthful(s: State, t: nat, r: nat, value: nat)
    requires Replied(s, t, r) && Judge(s.requests[r].command, s.requests[r].line.value) == Accepted(value)
    requires Next(s.calls[t].op, s.calls[t].got + [value]) == None
    ensures Truthful(s, s.calls[t], Success(s.calls[t].got + [value]))
  {
    hide Memory, Turns, LiveStream, Monitors, Judge, Results, Outcomes, Stale, Inboxes, Logged, OnlyLine, Body;
    FlightWrite(s, t);
  }

  lemma SuccessReturned(s: State, t: nat, r: nat, value: nat)
    requires Replied(s, t, r) && Judge(s.requests[r].command, s.requests[r].line.value) == Accepted(value)
    requires Next(s.calls[t].op, s.calls[t].got + [value]) == None
    ensures Returned(s, t, Success(s.calls[t].got + [value]))
  {
    hide Memory, Turns, LiveStream, Monitors, Judge, Next, Body, Correlated, Outcomes, Stale, Inboxes, Logged;
    FlightWrite(s, t);
    OneMoreValue(s, t, r, value);
  }

  lemma SuccessReply(s: State, t: nat, r: nat, value: nat)
    requires Monitors(s) && Replied(s, t, r)
    requires Judge(s.requests[r].command, s.requests[r].line.value) == Accepted(value)
    requires Next(s.calls[t].op, s.calls[t].got + [value]) == None
    ensures Inv(Finish(s, t, Success(s.calls[t].got + [value])))
  {
    SuccessTruthful(s, t, r, value);
    SuccessReturned(s, t, r, value);
    hide Books, Memory, Turns, LiveStream, Monitors, Inv, Judge, Truthful, Returned;
    MemoryIdle(s, Some(r));
    FinishKeeps(s, t, Some(r), Success(s.calls[t].got + [value]));
  }

  function GotMore(s: State, t: nat, value: nat): State
    requires t in s.calls
  {
    s.(calls := s.calls[t := s.calls[t].(stage := Ready, got := s.calls[t].got + [value])])
  }

  /** Only a read is followed by another exchange. */
  lemma OnlyReadsContinue(op: Op, got: seq<nat>, value: nat)
    requires Next(op, got).Some? && Next(op, got + [value]).Some?
    ensures !StateChanging(Next(op, got).value)
    ensures op.WriteBit? ==> got == [] && Next(op, got) == Some(ReadWord(op.addr))
  {
  }

  lemma GotMoreRequests(s: State, t: nat, value: nat)
    requires Requests(s) && t in s.calls && Exchanging(s.calls[t].stage) && s.calls[t].write == None
    requires Next(s.calls[t].op, s.calls[t].got + [value]).Some?
    ensures Requests(GotMore(s, t, value))
  {
    hide Next;
  }

  /** One more reply accepted, one more value obtained. */
  lemma OneMoreValue(s: State, t: nat, r: nat, value: nat)
    requires Results(s) && t in s.calls && !s.calls[t].stage.Over? && r < |s.requests|
    requires Yields(s.requests[r], t, Next(s.calls[t].op, s.calls[t].got), value)
    ensures Backed(s, t, s.calls[t].op, s.calls[t].got + [value])
  {
    hide Yields, Next;
    var op, got := s.calls[t].op, s.calls[t].got;
    var values := got + [value];
    assert Backed(s, t, op, got);
    assert forall i :: 0 <= i <= |got| ==> values[..i] == got[..i];
    assert got[..|got|] == got;
  }

  lemma GotMoreResults(s: State, t: nat, r: nat, value: nat)
    requires Results(s) && t in s.calls && !s.calls[t].stage.Over? && r < |s.requests|
    requires Yields(s.requests[r], t, Next(s.calls[t].op, s.calls[t].got), value)
    ensures Results(GotMore(s, t, value))
  {
    OneMoreValue(s, t, r, value);
    hide Yields, Next;
    var s' := GotMore(s, t, value);
    forall u: nat | u in s.calls && u != t
      ensures Backed(s', u, s'.calls[u].op, Values(s'.calls[u]))
      ensures s'.calls[u].stage.Over? ==> Returned(s', u, s'.calls[u].stage.outcome)
    {
      assert s'.calls[u] == s.calls[u];
      BackedFrame(s, s', u, s.calls[u].op, Values(s.calls[u]));
    }
    BackedFrame(s, s', t, s.calls[t].op, s.calls[t].got + [value]);
  }

  lemma GotMoreBooks(s: State, t: nat, r: nat, value: nat)
    requires Books(s, Some(r)) && t in s.calls && Exchanging(s.calls[t].stage) && s.calls[t].stage.req == r
    requires r < |s.requests| && s.requests[r].status.Served? && s.calls[t].write == None
    requires Next(s.calls[t].op, s.calls[t].got + [value]).Some?
    requires Yields(s.requests[r], t, Next(s.calls[t].op, s.calls[t].got), value)
    ensures Books(GotMore(s, t, value), None)
  {
    hide Correlated, Next, Results, Yields;
    var s' := GotMore(s, t, value);
    GotMoreRequests(s, t, value);
    GotMoreResults(s, t, r, value);
    hide Requests, Inboxes, Logged;
    LogFrame(s, s');
    assert Outcomes(s') && Stale(s', None);
  }

  lemma GotMoreMemory(s: State, t: nat, r: nat, value: nat)
    requires Memory(s, Some(r)) && t in s.calls && Exchanging(s.calls[t].stage) && r < |s.requests|
    requires s.requests[r].status.Served? && s.requests[r].line == Some(Body(s.requests[r].status.reply))
    requires Judge(s.requests[r].command, s.requests[r].line.value) == Accepted(value)
    requires s.calls[t].op.WriteBit? ==> s.calls[t].got == [] && s.requests[r].command == ReadWord(s.calls[t].op.addr)
    ensures Memory(GotMore(s, t, value), None)
  {
    hide Judge;
    var s' := GotMore(s, t, value);
    forall u: nat ensures SameEffect(s, s', u) {}
    ReplayMore(s, s');
    if Quiet(s') {
      forall u: nat | u in s.calls ensures !Doubtful(s.calls[u]) { assert u in s'.calls; }
    }
    CalmBefore(s, s');
    hide Serial, Replay;
    SerialMore(s, s');
  }

  lemma ContinueReply(s: State, t: nat, r: nat, value: nat)
    requires Monitors(s) && Replied(s, t, r)
    requires Judge(s.requests[r].command, s.requests[r].line.value) == Accepted(value)
    ensures Inv(Continue(s, t, value))
  {
    if Next(s.calls[t].op, s.calls[t].got + [value]) == None {
      hide Inv, Replied, Monitors, Judge;
      SuccessReply(s, t, r, value);
    } else {
      GotMoreKeeps(s, t, r, value);
      hide Inv, Replied, Monitors, Judge;
    }
  }

  /** A read was answered and the call goes on with its next exchange. */
  lemma GotMoreKeeps(s: State, t: nat, r: nat, value: nat)
    requires Monitors(s) && Replied(s, t, r)
    requires Judge(s.requests[r].command, s.requests[r].line.value) == Accepted(value)
    requires Next(s.calls[t].op, s.calls[t].got + [value]) != None
    ensures Inv(GotMore(s, t, value))
  {
    hide Requests, Inboxes, Logged, Correlated, Results, Outcomes, Stale, Memory, Runs.Inv, Monitors, Judge;
    FlightWrite(s, t);
    OnlyReadsContinue(s.calls[t].op, s.calls[t].got, value);
    var s' := GotMore(s, t, value);
    StageTurns(s, s', t);
    GotMoreTransports(s, t, value);
    hide Turns;
    GotMoreBooks(s, t, r, value);
    GotMoreMemory(s, t, r, value);
    hide LiveStream;
    WorldLine(s, s', None);
  }

  lemma GotMoreTransports(s: State, t: nat, value: nat)
    requires Turns(s) && t in s.calls && InTurn(s.calls[t].stage) && !OwnerInvalidated(s)
    ensures Transports(GotMore(s, t, value), None)
  {
    OnlyOneInTurn(s, t);
  }

  lemma DecodeKeeps(s: State, t: nat, r: nat, late: bool)
    requires Replied(s, t, r) && Unremembered(s, r)
    ensures Inv(Decode(s, t, s.requests[r].command, s.requests[r].line.value, late))
  {
    hide LiveStream, Memory, Inv, Judge, Turns, Books, Monitors, Raise, Finish, Continue;
    var c, line := s.requests[r].command, s.requests[r].line.value;
    if late || Judge(c, line).Bad? {
      RaiseReply(s, t, r, if late then Timeout else Malformed);
    } else if Judge(c, line).Refused? {
      RefusedReply(s, t, r);
    } else {
      RememberReply(s, t, r);
      RememberMonitors(s, r);
      ContinueReply(Remember(s, c), t, r, Judge(c, line).value);
    }
  }
}
