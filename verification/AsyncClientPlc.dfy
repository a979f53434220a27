/** The PLC and the network keep the invariant; and so, event by event, does every run. */
module AsyncClientPlc {
  import opened Wrappers
  import opened Accumulator
  import opened AsyncAdmission
  import opened LineReceiver
  import opened AsyncClient
  import opened AsyncClientRuns
  import opened AsyncClientSteps
  import opened AsyncClientExchange
  import Runs = AsyncAdmissionRuns

  // ---------------------------------------------------------------- the PLC serves a request

  /** `r` heads the inbox of `conn` and is answered with `reply`. */
  ghost predicate Serves(s: State, conn: nat, r: nat, executed: bool, reply: seq<Byte>) {
    && conn < |s.conns| && s.conns[conn].inbox == [r] && r < |s.requests| && s.requests[r].conn == conn
    && s.requests[r].status == Sent
    && OnlyLine(reply)
  }

  function Answer(s: State, conn: nat, r: nat, executed: bool, reply: seq<Byte>): State
    requires conn < |s.conns| && r < |s.requests|
  {
    s.(conns := s.conns[conn := Conn([], s.conns[conn].wire + reply, s.conns[conn].arrived)],
       requests := s.requests[r := s.requests[r].(status := Served(executed, reply, s.memory))],
       memory := if executed then Effect(s.memory, s.requests[r].command) else s.memory,
       log := if executed then s.log + [r] else s.log)
  }

  lemma AnswerRequests(s: State, conn: nat, r: nat, executed: bool, reply: seq<Byte>)
    requires Requests(s) && Inboxes(s) && Serves(s, conn, r, executed, reply)
    ensures Requests(Answer(s, conn, r, executed, reply)) && Inboxes(Answer(s, conn, r, executed, reply))
  {
    hide Next, Honest, OnlyLine;
    var s' := Answer(s, conn, r, executed, reply);
    assert Requests(s');
    assert Inboxes(s');
  }

  lemma AnswerLog(s: State, conn: nat, r: nat, executed: bool, reply: seq<Byte>)
    requires Logged(s) && Correlated(s) && Serves(s, conn, r, executed, reply)
    ensures Logged(Answer(s, conn, r, executed, reply)) && Correlated(Answer(s, conn, r, executed, reply))
  {
    hide Honest, OnlyLine;
    var s' := Answer(s, conn, r, executed, reply);
    assert Correlated(s');
    if executed {
      assert s'.log[|s.log|] == r;
      assert forall q :: q in s.log ==> q in s'.log;
    }
  }

  lemma AnswerOutcomes(s: State, conn: nat, r: nat, executed: bool, reply: seq<Byte>, current: Option<nat>)
    requires Outcomes(s) && Stale(s, current) && Serves(s, conn, r, executed, reply)
    ensures Outcomes(Answer(s, conn, r, executed, reply)) && Stale(Answer(s, conn, r, executed, reply), current)
  {
    hide Honest, OnlyLine;
  }

  lemma AnswerResults(s: State, conn: nat, r: nat, executed: bool, reply: seq<Byte>)
    requires Results(s) && conn < |s.conns| && r < |s.requests|
    ensures Results(Answer(s, conn, r, executed, reply))
  {
    hide Results;
    ResultsFrame(s, Answer(s, conn, r, executed, reply));
  }

  lemma AnswerMonitors(s: State, conn: nat, r: nat, executed: bool, reply: seq<Byte>)
    requires Monitors(s) && conn < |s.conns| && r < |s.requests|
    ensures Monitors(Answer(s, conn, r, executed, reply))
  {
    SameLinesSameMonitors(s.requests, Answer(s, conn, r, executed, reply).requests, s.live);
  }

  /** The reply follows leftover separators: the stream now holds exactly that line. */
  lemma AnswerStream(s: State, conn: nat, r: nat, executed: bool, reply: seq<Byte>, current: Option<nat>)
    requires LiveStream(s, current) && Serves(s, conn, r, executed, reply)
    ensures LiveStream(Answer(s, conn, r, executed, reply), current)
  {
    hide Judge;
    var s' := Answer(s, conn, r, executed, reply);
    if s.live == Some(conn) {
      assert current == Some(r);
      var before := StreamOf(s, conn);
      assert StreamOf(s', conn) == before + reply;
      NoCore(before);
      CoreExtend(before, reply);
    }
  }

  /** Without a state-changing execution the replay is what it was. */
  lemma AnswerSameEffects(s: State, conn: nat, r: nat, executed: bool, reply: seq<Byte>)
    requires Requests(s) && Serves(s, conn, r, executed, reply)
    requires !(executed && StateChanging(s.requests[r].command))
    ensures var s' := Answer(s, conn, r, executed, reply);
            s'.memory == s.memory && Replay(s', s'.turns.granted) == Replay(s, s.turns.granted)
            && forall t: nat :: SameEffect(s, s', t)
  {
    hide Honest, OnlyLine, Next;
    var s' := Answer(s, conn, r, executed, reply);
    forall t: nat ensures SameEffect(s, s', t) {}
    ReplayMore(s, s');
  }

  lemma AnswerQuietly(s: State, conn: nat, r: nat, executed: bool, reply: seq<Byte>, current: Option<nat>)
    requires Requests(s) && Memory(s, current) && Serves(s, conn, r, executed, reply) && s.requests[r].line == None
    requires !(executed && StateChanging(s.requests[r].command))
    ensures Memory(Answer(s, conn, r, executed, reply), current)
  {
    var s' := Answer(s, conn, r, executed, reply);
    AnswerSameEffects(s, conn, r, executed, reply);
    hide Judge, Requests, Replay, OnlyLine, Serial, Honest;
    CalmBefore(s, s');
    SerialMore(s, s');
  }

  /** The state-changing command under way does to memory what its operation does atomically. */
  lemma CommandIsAtomic(s: State, t: nat, r: nat)
    requires Requests(s) && t in s.calls && Exchanging(s.calls[t].stage) && s.calls[t].stage.req == r
    requires r < |s.requests| && StateChanging(s.requests[r].command)
    requires BitRead(s.calls[t]) ==> s.calls[t].got[0] == Word(s.memory, s.calls[t].op.addr)
    ensures Effect(s.memory, s.requests[r].command) == Atomic(s.memory, s.calls[t].op)
  {
    FlightWrite(s, t);
  }

  lemma GrantedOnce(s: State, t: nat)
    requires Turns(s) && Inside(s.turns) == Some(t)
    ensures s.turns.granted != [] && Runs.Last(s.turns.granted) == t
    ensures forall i :: 0 <= i < |s.turns.granted| - 1 ==> s.turns.granted[i] != t
  {
  }

  /** Executing the write of the call in its turn adds exactly that operation to the replay. */
  lemma AnswerReplay(s: State, conn: nat, r: nat, reply: seq<Byte>)
    requires Turns(s) && Requests(s) && Serves(s, conn, r, true, reply) && StateChanging(s.requests[r].command)
    requires Current(s) == Some(r) && Memory(s, Some(r)) && Calm(s)
    ensures var s' := Answer(s, conn, r, true, reply);
            s'.memory == Replay(s', s'.turns.granted) && Effective(s', s.requests[r].ticket)
  {
    hide Honest, OnlyLine, Runs.Inv;
    var s' := Answer(s, conn, r, true, reply);
    var t := s.requests[r].ticket;
    var granted := s.turns.granted;
    assert Inside(s.turns) == Some(t) by { FlightOwner(s, r); }
    GrantedOnce(s, t);
    var earlier := granted[..|granted| - 1];
    FlightWrite(s, t);
    assert !Effective(s, t) && Effective(s', t);
    forall i | 0 <= i < |earlier| ensures SameEffect(s, s', earlier[i]) {
      assert earlier[i] == granted[i] != t;
    }
    ReplayFrame(s, s', earlier);
    CommandIsAtomic(s, t, r);
  }

  lemma FlightOwner(s: State, r: nat)
    requires Requests(s) && Current(s) == Some(r)
    ensures r < |s.requests| && Inside(s.turns) == Some(s.requests[r].ticket)
    ensures s.requests[r].ticket in s.calls && Exchanging(s.calls[s.requests[r].ticket].stage)
    ensures s.calls[s.requests[r].ticket].stage.req == r
  {
  }

  /** The write of the call in its turn comes after every snapshot taken so far. */
  lemma AnswerSerial(s: State, conn: nat, r: nat, reply: seq<Byte>)
    requires Turns(s) && Requests(s) && Serves(s, conn, r, true, reply) && StateChanging(s.requests[r].command)
    requires Stale(s, Current(s)) && Serial(s) && s.requests[r].line == None
    ensures Serial(Answer(s, conn, r, true, reply))
  {
    hide Honest, OnlyLine, Runs.Inv, Next, Snapshot;
    var s' := Answer(s, conn, r, true, reply);
    CalmBefore(s, s');
    if Calm(s') {
      assert Current(s) == Some(r);
      FlightOwner(s, r);
      GrantsIncrease(s);
      forall q | 0 <= q < |s.requests| && s.requests[q].line.Some? && s.requests[q].command.ReadWord?
        ensures Snapshot(s', s'.requests[q])
      {
        EarlierSnapshot(s, s', s.requests[r].ticket, s.requests[q]);
      }
    }
  }

  lemma EarlierSnapshot(s: State, s': State, t: nat, q: Request)
    requires s'.origin == s.origin && s'.turns.granted == s.turns.granted && Runs.Increasing(s.turns.granted)
    requires forall u: nat :: u != t ==> SameEffect(s, s', u)
    requires q.ticket <= t && Snapshot(s, q)
    ensures Snapshot(s', q)
  {
    BeforeIsBefore(s.turns.granted, q.ticket);
    AsyncClientSteps.ReplayFrame(s, s', Before(s.turns.granted, q.ticket));
  }

  lemma {:induction false} BeforeIsBefore(granted: seq<nat>, t: nat)
    requires Runs.Increasing(granted)
    ensures forall i :: 0 <= i < |Before(granted, t)| ==> Before(granted, t)[i] < t
  {
    if granted != [] && Runs.Last(granted) >= t { BeforeIsBefore(granted[..|granted| - 1], t); }
  }

  lemma AnswerWrite(s: State, conn: nat, r: nat, reply: seq<Byte>)
    requires Turns(s) && Requests(s) && Serves(s, conn, r, true, reply) && StateChanging(s.requests[r].command)
    requires Stale(s, Current(s)) && Memory(s, Current(s)) && s.requests[r].line == None
    ensures Memory(Answer(s, conn, r, true, reply), Current(s))
  {
    hide Serial, Replayed, Requests, Turns, Stale, Calm, OnlyLine, Answer, StateChanging, Current;
    var s' := Answer(s, conn, r, true, reply);
    AnswerSerial(s, conn, r, reply);
    if Calm(s') {
      AnswerCalmly(s, conn, r, reply);
    } else {
      NotCalm(s', Current(s));
    }
  }

  lemma AnswerCalmly(s: State, conn: nat, r: nat, reply: seq<Byte>)
    requires Turns(s) && Requests(s) && Serves(s, conn, r, true, reply) && StateChanging(s.requests[r].command)
    requires Stale(s, Current(s)) && Memory(s, Current(s)) && Calm(Answer(s, conn, r, true, reply))
    ensures Replayed(Answer(s, conn, r, true, reply), Current(s))
  {
    hide Serial, Replay, Replayed, Requests, Effective, Honest, OnlyLine, Calm, Turns, Stale, Effect, BitRead, Current;
    StillCalm(s, conn, r, reply);
    WriteIsCurrent(s, conn, r, reply);
    AnswerReplay(s, conn, r, reply);
    AnswerTurn(s, r);
    ReplayedNow(Answer(s, conn, r, true, reply), s.requests[r].ticket, r);
  }

  lemma StillCalm(s: State, conn: nat, r: nat, reply: seq<Byte>)
    requires Serves(s, conn, r, true, reply)
    ensures Calm(Answer(s, conn, r, true, reply)) ==> Calm(s)
  {
    hide Honest, OnlyLine, Calm, Effect;
    CalmBefore(s, Answer(s, conn, r, true, reply));
  }

  lemma NotCalm(s: State, current: Option<nat>)
    requires !Calm(s)
    ensures Replayed(s, current)
  {
    hide Calm, Replay;
  }

  /** The call under way took effect, and its exchange is no read. */
  lemma ReplayedNow(s: State, t: nat, r: nat)
    requires s.memory == Replay(s, s.turns.granted) && Effective(s, t)
    requires forall u: nat :: u in s.calls && BitRead(s.calls[u]) ==> u == t
    requires r < |s.requests| && StateChanging(s.requests[r].command)
    ensures Replayed(s, Some(r))
  {
    hide Calm, Replay, BitRead, Effective;
  }

  /** While all stays calm, the write that is served is the one under way. */
  lemma WriteIsCurrent(s: State, conn: nat, r: nat, reply: seq<Byte>)
    requires Serves(s, conn, r, true, reply) && StateChanging(s.requests[r].command) && Stale(s, Current(s))
    requires Calm(Answer(s, conn, r, true, reply))
    ensures Current(s) == Some(r)
  {
    hide Honest, OnlyLine, Trusted;
  }

  /** The only call that may be between the read and the write of a bit write is the one under way. */
  lemma AnswerTurn(s: State, r: nat)
    requires Turns(s) && Requests(s) && Current(s) == Some(r)
    ensures r < |s.requests| && forall t: nat :: t in s.calls && BitRead(s.calls[t]) ==> t == s.requests[r].ticket
  {
    hide Runs.Inv, Next;
    FlightOwner(s, r);
    OnlyOneInTurn(s, s.requests[r].ticket);
  }

  lemma ServeKeeps(s: State, conn: nat, r: nat, executed: bool, reply: seq<Byte>)
    requires Inv(s) && Serves(s, conn, r, executed, reply)
    ensures Inv(Answer(s, conn, r, executed, reply))
  {
    var s' := Answer(s, conn, r, executed, reply);
    AnswerTurns(s, conn, r, executed, reply);
    SentHasNoLine(s, r);
    if executed && StateChanging(s.requests[r].command) {
      AnswerWrite(s, conn, r, reply);
    } else {
      AnswerQuietly(s, conn, r, executed, reply, Current(s));
    }
    hide Memory, Turns;
    AnswerRequests(s, conn, r, executed, reply);
    AnswerLog(s, conn, r, executed, reply);
    AnswerOutcomes(s, conn, r, executed, reply, Current(s));
    AnswerMonitors(s, conn, r, executed, reply);
    AnswerResults(s, conn, r, executed, reply);
    AnswerStream(s, conn, r, executed, reply, Current(s));
  }

  lemma SentHasNoLine(s: State, r: nat)
    requires Correlated(s) && r < |s.requests| && s.requests[r].status == Sent
    ensures s.requests[r].line == None
  {
    hide Answered, Body;
  }

  lemma AnswerTurns(s: State, conn: nat, r: nat, executed: bool, reply: seq<Byte>)
    requires Turns(s) && Transports(s, Current(s)) && conn < |s.conns| && r < |s.requests|
    ensures var s' := Answer(s, conn, r, executed, reply);
            Turns(s') && Current(s') == Current(s) && Transports(s', Current(s))
  {
    hide Runs.Inv;
  }

  // ---------------------------------------------------------------- the network

  /** Only the bytes of one connection move, and a stream that changes gains separators at most. */
  lemma WireKeeps(s: State, conn: nat, c: Conn)
    requires Inv(s) && conn < |s.conns| && c.inbox == s.conns[conn].inbox
    requires exists x :: AllSep(x) && c.arrived + c.wire == s.conns[conn].arrived + s.conns[conn].wire + x
    ensures Inv(WithConn(s, conn, c))
  {
    hide Runs.Inv, Books, Memory;
    var s' := WithConn(s, conn, c);
    MemoryFrame(s, s', Current(s));
    BooksFrame(s, s', Current(s));
    assert Turns(s') && Current(s') == Current(s) && Transports(s', Current(s)) && Monitors(s');
    hide Turns;
    WireStream(s, conn, c, Current(s));
  }

  lemma WireStream(s: State, conn: nat, c: Conn, current: Option<nat>)
    requires LiveStream(s, current) && conn < |s.conns| && c.inbox == s.conns[conn].inbox
    requires exists x :: AllSep(x) && c.arrived + c.wire == s.conns[conn].arrived + s.conns[conn].wire + x
    ensures LiveStream(WithConn(s, conn, c), current)
  {
    hide OnlyLine, Body, AllSep;
    var s' := WithConn(s, conn, c);
    var x :| AllSep(x) && c.arrived + c.wire == s.conns[conn].arrived + s.conns[conn].wire + x;
    if s.live == Some(conn) {
      var before := StreamOf(s, conn);
      assert StreamOf(s', conn) == before + x;
      AllSepParts(before, x);
      if OnlyLine(before) { SeparatorsAfterLine(before, x); }
    }
  }

  lemma SeparatorsAfterLine(s: seq<Byte>, x: seq<Byte>)
    requires OnlyLine(s) && AllSep(x)
    ensures OnlyLine(s + x) && Body(s + x) == Body(s)
  {
    CoreExtend(s, x);
    if Core(s) == [] {
      NoCore(x);
    } else {
      var q := Core(s);
      var i := BodyLength(q);
      BodyLengthIs(x, 0);
      BodyExtend(q, x);
      assert (q + x)[..i] == q[..i];
      assert (q + x)[i..] == q[i..] + x;
      AllSepParts(q[i..], x);
    }
  }

  lemma DeliverKeeps(s: State, conn: nat, size: nat)
    requires Inv(s) && WellFormed(s) && AsyncClient.Possible(s, Deliver(conn, size))
    ensures Inv(AsyncClient.Happen(s, Deliver(conn, size)))
  {
    hide Inv;
    var c := s.conns[conn];
    var c' := Conn(c.inbox, c.wire[size..], c.arrived + c.wire[..size]);
    assert c'.arrived + c'.wire == c.arrived + c.wire + [] by { assert c.wire[..size] + c.wire[size..] == c.wire; }
    assert AllSep([]);
    WireKeeps(s, conn, c');
  }

  lemma NoiseKeeps(s: State, conn: nat, b: Byte)
    requires Inv(s) && WellFormed(s) && AsyncClient.Possible(s, Noise(conn, b))
    ensures Inv(AsyncClient.Happen(s, Noise(conn, b)))
  {
    hide Inv;
    var c := s.conns[conn];
    var c' := Conn(c.inbox, c.wire + [b], c.arrived);
    assert c'.arrived + c'.wire == c.arrived + c.wire + [b];
    assert AllSep([b]);
    WireKeeps(s, conn, c');
  }

  // ---------------------------------------------------------------- the remaining events of a call

  lemma FlightFacts(s: State, t: nat)
    requires Inv(s) && InExchange(s, t)
    ensures var r := s.calls[t].stage.req;
            && Current(s) == Some(r) && Acting(s, t, Some(r)) && Memory(s, Some(r)) && LiveStream(s, Some(r))
            && Monitors(s)
            && s.requests[r].conn < |s.conns|
            && (StateChanging(s.requests[r].command) <==> s.calls[t].write.Some?)
            && (s.live == None <==> OwnerInvalidated(s))
  {
    ActingFrom(s, t);
    FlightWrite(s, t);
    hide Runs.Inv, Turns, Memory, LiveStream, Monitors;
  }

  lemma RaiseFlight(s: State, t: nat, reason: Reason)
    requires Inv(s) && WellFormed(s) && InExchange(s, t)
    ensures Inv(Raise(s, t, reason, StateChanging(s.requests[s.calls[t].stage.req].command)))
  {
    FlightFacts(s, t);
    hide Inv, Acting, Memory, LiveStream, Raise;
    var r := s.calls[t].stage.req;
    MemoryIdle(s, Some(r));
    RaiseKeeps(s, t, Some(r), reason, StateChanging(s.requests[r].command));
  }

  /** The exchange of `t` can take `size` bytes that have arrived. */
  predicate CanRead(s: State, t: nat, size: nat) {
    && WellFormed(s) && InExchange(s, t) && s.requests[s.calls[t].stage.req].conn < |s.conns|
    && size <= |s.conns[s.requests[s.calls[t].stage.req].conn].arrived|
  }

  /** Once a chunk was scanned in vain or refused, the exchange raises. */
  lemma ScannedRaise(s: State, t: nat, size: nat, reason: Reason)
    requires CanRead(s, t, size) && Inv(s)
    ensures var r := s.calls[t].stage.req;
            Inv(Raise(AfterScan(s, r, size), t, reason, StateChanging(s.requests[r].command)))
  {
    var r := s.calls[t].stage.req;
    FlightFacts(s, t);
    hide Inv, LiveStream, Raise, Memory, Turns, Books, Monitors, TakeFrom, Appended;
    ScannedActing(s, t, r, size);
    var s' := AfterScan(s, r, size);
    MemoryIdle(s', Some(r));
    RaiseKeeps(s', t, Some(r), reason, StateChanging(s.requests[r].command));
  }

  /** An untyped exception also retires the transport. */
  lemma ScannedCrash(s: State, t: nat, size: nat)
    requires CanRead(s, t, size) && Inv(s)
    ensures Inv(Finish(Retire(AfterScan(s, s.calls[t].stage.req, size)), t, Crashed))
  {
    var r := s.calls[t].stage.req;
    FlightFacts(s, t);
    hide Inv, LiveStream, Memory, Turns, Books, Monitors, TakeFrom, Appended;
    ScannedActing(s, t, r, size);
    var s' := AfterScan(s, r, size);
    MemoryIdle(s', Some(r));
    CrashKeeps(s', t, r);
  }

  lemma CrashKeeps(s: State, t: nat, r: nat)
    requires Acting(s, t, Some(r)) && WellFormed(s) && Memory(s, None)
    ensures Inv(Finish(Retire(s), t, Crashed))
  {
    hide Inv, LiveStream, Memory, Turns, Books, Monitors;
    RetireActing(s, t, Some(r));
    FinishKeeps(Retire(s), t, Some(r), Crashed);
  }

  lemma ScannedWaits(s: State, t: nat, size: nat)
    requires CanRead(s, t, size) && s.live.Some? && Inv(s)
    requires TakeOutcome(Appended(s, s.calls[t].stage.req, size), Limit(s.requests[s.calls[t].stage.req].command))
        == Incomplete
    ensures Inv(AfterScan(s, s.calls[t].stage.req, size))
  {
    hide LiveStream, Memory, Turns, Books, Monitors, Transports, TakeFrom, TakeOutcome, Appended, Limit;
    var r := s.calls[t].stage.req;
    FlightFacts(s, t);
    LiveConn(s, r);
    ScannedActing(s, t, r, size);
    ScannedStream(s, r, size);
    SameTransports(s, AfterScan(s, r, size));
    SameMonitors(s, AfterScan(s, r, size));
  }

  lemma SameMonitors(s: State, s': State)
    requires Monitors(s) && s'.requests == s.requests && s'.live == s.live && s'.bits == s.bits && s'.words == s.words
    ensures Monitors(s')
  {
  }

  /** While a reply is awaited, the request under way has confirmed nothing. */
  lemma AwaitedUnremembered(s: State, r: nat, size: nat, line: seq<Byte>)
    requires LiveStream(s, Some(r)) && s.live.Some? && Monitors(s) && s.requests[r].conn < |s.conns|
    requires size <= |s.conns[s.requests[r].conn].arrived|
    ensures Unremembered(Recorded(AfterScan(s, r, size), r, line), r)
  {
    hide Judge, AppendTo, TakeFrom, Limit;
    var s' := Recorded(AfterScan(s, r, size), r, line);
    assert s'.requests[..r] == s.requests[..r];
  }

  lemma SameTransports(s: State, s': State)
    requires Transports(s, Current(s)) && s'.turns == s.turns && s'.calls == s.calls && s'.live == s.live
    ensures Current(s') == Current(s) && Transports(s', Current(s'))
  {
  }

  lemma ScannedReplies(s: State, t: nat, size: nat, late: bool)
    requires CanRead(s, t, size) && s.live.Some? && Inv(s)
    requires TakeOutcome(Appended(s, s.calls[t].stage.req, size), Limit(s.requests[s.calls[t].stage.req].command)).Line?
    ensures var r := s.calls[t].stage.req;
            var line := TakeOutcome(Appended(s, r, size), Limit(s.requests[r].command)).line;
            Inv(Decode(Recorded(AfterScan(s, r, size), r, line), t, s.requests[r].command, line, late))
  {
    var r := s.calls[t].stage.req;
    FlightFacts(s, t);
    LiveConn(s, r);
    hide LiveStream, Memory, Turns, Books, Monitors, TakeFrom, TakeOutcome, Appended, Limit, Decode, Inv;
    ScannedActing(s, t, r, size);
    LineAnswers(s, r, size);
    var line := TakeOutcome(Appended(s, r, size), Limit(s.requests[r].command)).line;
    ReplyRecorded(AfterScan(s, r, size), t, r, line);
    AwaitedUnremembered(s, r, size, line);
    DecodeKeeps(Recorded(AfterScan(s, r, size), r, line), t, r, late);
  }

  lemma LiveConn(s: State, r: nat)
    requires LiveStream(s, Some(r)) && s.live.Some?
    ensures r < |s.requests| && s.live == Some(s.requests[r].conn)
  {
  }

  /** What a completed read does, in terms of the state after the scan. */
  function Outcome(s: State, t: nat, r: nat, size: nat, late: bool): State
    requires t in s.calls && t in s.turns.holder && WellFormed(s) && r < |s.requests| && s.requests[r].conn < |s.conns|
    requires size <= |s.conns[s.requests[r].conn].arrived|
  {
    var command, s1 := s.requests[r].command, AfterScan(s, r, size);
    match TakeOutcome(Appended(s, r, size), Limit(command))
    case Line(line, _) =>
      if OwnerInvalidated(s) then Raise(s1, t, Reason.Closed, StateChanging(command))
      else Decode(Recorded(s1, r, line), t, command, line, late)
    case Incomplete => if s.live == None then Finish(Retire(s1), t, Crashed) else s1
    case _ => Raise(s1, t, Malformed, StateChanging(command))
  }

  lemma ReadHappens(s: State, t: nat, size: nat, late: bool)
    requires WellFormed(s) && AsyncClient.Possible(s, ReadChunk(t, size, late))
    ensures InExchange(s, t)
    ensures var r := s.calls[t].stage.req;
            && s.requests[r].conn < |s.conns| && size <= |s.conns[s.requests[r].conn].arrived|
            && AsyncClient.Happen(s, ReadChunk(t, size, late)) == Outcome(s, t, r, size, late)
  {
    hide TakeFrom, TakeOutcome, Raise, Decode, Finish, Retire, StateChanging, Limit, AppendTo;
    var r := s.calls[t].stage.req;
    var conn := s.requests[r].conn;
    var arrived := s.conns[conn].arrived;
    var s0 := WithConn(s, conn, s.conns[conn].(arrived := arrived[size..]));
    assert AppendTo(s0.rx, arrived[..size]) == Appended(s, r, size);
    assert s0.(rx := TakeFrom(Appended(s, r, size), Limit(s.requests[r].command))) == AfterScan(s, r, size);
  }

  lemma OutcomeKeeps(s: State, t: nat, r: nat, size: nat, late: bool)
    requires Inv(s) && WellFormed(s) && InExchange(s, t) && r == s.calls[t].stage.req && s.requests[r].conn < |s.conns|
    requires size <= |s.conns[s.requests[r].conn].arrived|
    ensures Inv(Outcome(s, t, r, size, late))
  {
    hide Inv, AfterScan, TakeFrom, TakeOutcome, Raise, Decode, Finish, Appended, Limit, Recorded;
    match TakeOutcome(Appended(s, r, size), Limit(s.requests[r].command)) {
      case Line(line, _) =>
        if OwnerInvalidated(s) {
          ScannedRaise(s, t, size, Reason.Closed);
        } else {
          FlightFacts(s, t);
          hide LiveStream, Memory, Acting;
          ScannedReplies(s, t, size, late);
        }
      case Incomplete =>
        if s.live == None {
          ScannedCrash(s, t, size);
        } else {
          ScannedWaits(s, t, size);
        }
      case _ =>
        ScannedRaise(s, t, size, Malformed);
    }
  }

  lemma ReadKeeps(s: State, t: nat, size: nat, late: bool)
    requires Inv(s) && WellFormed(s) && AsyncClient.Possible(s, ReadChunk(t, size, late))
    ensures Inv(AsyncClient.Happen(s, ReadChunk(t, size, late)))
  {
    hide Inv, AsyncClient.Happen, AsyncClient.Possible, Outcome;
    ReadHappens(s, t, size, late);
    OutcomeKeeps(s, t, s.calls[t].stage.req, size, late);
  }

  function NewConn(s: State): State
    requires WellFormed(s)
  {
    s.(live := Some(|s.conns|), conns := s.conns + [Conn([], [], [])], rx := ResetTo(s.rx, false))
  }

  lemma NewConnStream(s: State)
    requires WellFormed(s) && s.bits == 0 && s.words == [] && Requests(s)
    ensures LiveStream(NewConn(s), None) && Monitors(NewConn(s))
  {
    hide Next;
    assert StreamOf(NewConn(s), |s.conns|) == [];
    NewConnMonitors(s.requests, |s.conns|);
  }

  lemma {:induction false} NewConnMonitors(requests: seq<Request>, conn: nat)
    requires forall r :: 0 <= r < |requests| ==> requests[r].conn != conn
    ensures LastBits(requests, Some(conn)) == 0 && LastWords(requests, Some(conn)) == []
  {
    hide Confirmed;
    if requests != [] { NewConnMonitors(requests[..|requests| - 1], conn); }
  }

  lemma UnsentActs(s: State, t: nat)
    requires Inv(s) && t in s.calls && (s.calls[t].stage.Ready? || s.calls[t].stage.Connecting?)
    ensures s.calls[t].write == None && Books(s, None) && Memory(s, None) && Current(s) == None
  {
    ActingFrom(s, t);
    UnsentHasNoWrite(s, t);
  }

  lemma ConnectedActs(s: State, t: nat)
    requires Inv(s) && WellFormed(s) && At(s, t, Connecting)
    ensures var s' := NewConn(s);
            Acting(s', t, None) && LiveStream(s', None) && Memory(s', None) && Monitors(s') && s'.calls[t].write == None
  {
    hide Books, Memory, Runs.Inv, Monitors, LiveStream;
    var s' := NewConn(s);
    ActingFrom(s, t);
    UnsentActs(s, t);
    ConnectingIdle(s, t);
    NewConnBooks(s, s');
    MemoryFrame(s, s', None);
    assert Turns(s');
    hide Turns;
    NewConnStream(s);
  }

  lemma ConnectedDone(s: State, t: nat)
    requires t in s.calls && s.calls[t].op.Connect? && WellFormed(s)
    ensures Returned(NewConn(s), t, Success([]))
  {
  }

  lemma ConnectedKeeps(s: State, t: nat)
    requires Inv(s) && WellFormed(s) && AsyncClient.Possible(s, Connected(t))
    ensures Inv(AsyncClient.Happen(s, Connected(t)))
  {
    hide Inv, Books, Turns, LiveStream, Memory, Monitors, Finish;
    if OwnerInvalidated(s) {
      UnsentKeeps(s, t, Failed(Reason.Closed));
    } else {
      ConnectingIdle(s, t);
      ConnectedActs(s, t);
      assert Returned(NewConn(s), t, Success([])) by { ConnectedDone(s, t); }
      hide Returned;
      FinishKeeps(NewConn(s), t, None, Success([]));
    }
  }

  lemma ConnectingIdle(s: State, t: nat)
    requires Inv(s) && t in s.calls && s.calls[t].stage.Connecting?
    ensures s.live == None && s.bits == 0 && s.words == []
    ensures s.calls[t].op.Connect?
  {
    NoLiveMonitors(s.requests);
    hide Turns, Books, LiveStream, Memory;
  }

  lemma NewConnBooks(s: State, s': State)
    requires Books(s, None) && s' == s.(live := s'.live, conns := s.conns + [Conn([], [], [])], rx := s'.rx)
    ensures Books(s', None)
  {
    hide Next, Answered, Results;
    assert Requests(s');
    assert Inboxes(s');
    assert Logged(s') && Correlated(s');
    assert Outcomes(s') && Stale(s', None);
    ResultsFrame(s, s');
  }

  lemma GoKeeps(s: State, t: nat)
    requires Inv(s) && WellFormed(s) && AsyncClient.Possible(s, Go(t))
    ensures Inv(AsyncClient.Happen(s, Go(t)))
  {
    hide Inv, Finish, Begin, Next, Returned;
    if s.calls[t].op.Connect? {
      if s.live.Some? {
        assert !Writes(s.calls[t].op);
        ConnectsToNothing(s, t);
        UnsentKeeps(s, t, Success([]));
      } else {
        StageKeeps(s, t, Connecting);
      }
    } else {
      match Next(s.calls[t].op, s.calls[t].got)
      case None =>
        ReadyMayWrite(s, t);
        GotResults(s, t);
        UnsentKeeps(s, t, Success(s.calls[t].got));
      case Some(c) => BeginKeeps(s, t, c);
    }
  }

  lemma ConnectsToNothing(s: State, t: nat)
    requires t in s.calls && s.calls[t].op.Connect?
    ensures Returned(s, t, Success([]))
  {
  }

  lemma GotResults(s: State, t: nat)
    requires Inv(s) && t in s.calls && s.calls[t].stage.Ready? && Next(s.calls[t].op, s.calls[t].got) == None
    ensures Returned(s, t, Success(s.calls[t].got))
  {
    hide Runs.Inv, Backed;
  }

  lemma ReadyMayWrite(s: State, t: nat)
    requires Inv(s) && t in s.calls && s.calls[t].stage.Ready?
    ensures Writes(s.calls[t].op) ==> Next(s.calls[t].op, s.calls[t].got).Some?
  {
  }

  lemma DrainedKeeps(s: State, t: nat)
    requires Inv(s) && WellFormed(s) && AsyncClient.Possible(s, Drained(t))
    ensures Inv(AsyncClient.Happen(s, Drained(t)))
  {
    hide Inv, Raise;
    if s.live == None {
      RaiseFlight(s, t, if OwnerInvalidated(s) then Reason.Closed else NotConnected);
    } else {
      StageKeeps(s, t, Receiving(s.calls[t].stage.req));
    }
  }

  lemma FailKeeps(s: State, t: nat, cause: Cause)
    requires Inv(s) && WellFormed(s) && AsyncClient.Possible(s, Fail(t, cause))
    ensures Inv(AsyncClient.Happen(s, Fail(t, cause)))
  {
    hide Inv, Raise, Finish;
    if s.calls[t].stage.Connecting? {
      UnsentKeeps(s, t, Failed(ReasonOf(cause, false)));
    } else {
      RaiseFlight(s, t, ReasonOf(cause, OwnerInvalidated(s)));
    }
  }

  lemma ServesHead(s: State, conn: nat, executed: bool, reply: seq<Byte>)
    requires Inboxes(s) && AsyncClient.Possible(s, Serve(conn, executed, reply))
    ensures Serves(s, conn, s.conns[conn].inbox[0], executed, reply)
    ensures s.conns[conn].inbox[1..] == []
  {
    hide Honest, OnlyLine;
  }

  lemma ServeHappens(s: State, conn: nat, executed: bool, reply: seq<Byte>)
    requires Inboxes(s) && WellFormed(s) && AsyncClient.Possible(s, Serve(conn, executed, reply))
    requires s.conns[conn].inbox[1..] == []
    ensures AsyncClient.Happen(s, Serve(conn, executed, reply))
        == Answer(s, conn, s.conns[conn].inbox[0], executed, reply)
  {
    hide Inboxes, Effect;
  }

  lemma ServeStepKeeps(s: State, conn: nat, executed: bool, reply: seq<Byte>)
    requires Inv(s) && WellFormed(s) && AsyncClient.Possible(s, Serve(conn, executed, reply))
    ensures Inv(AsyncClient.Happen(s, Serve(conn, executed, reply)))
  {
    hide Turns, Inboxes, Requests, Correlated, Logged, Outcomes, Stale, LiveStream, Transports, Monitors, Memory;
    hide AsyncClient.Possible, AsyncClient.Happen;
    ServesHead(s, conn, executed, reply);
    ServeHappens(s, conn, executed, reply);
    ServeKeeps(s, conn, s.conns[conn].inbox[0], executed, reply);
  }

  // ---------------------------------------------------------------- every run

  lemma StepKeeps(s: State, e: Step)
    requires Inv(s)
    ensures Inv(AsyncClient.Apply(s, e))
  {
    hide Inv, AsyncClient.Happen;
    if WellFormed(s) && AsyncClient.Possible(s, e) {
      match e
      case CallOp(task, op) => AsyncClientSteps.CallKeeps(s, task, op);
      case Wake(t) => AsyncClientSteps.WakeKeeps(s, t);
      case CancelWait(t) => AsyncClientSteps.CancelKeeps(s, t);
      case CloseClient => AsyncClientSteps.CloseKeeps(s);
      case Go(t) => GoKeeps(s, t);
      case Connected(t) => ConnectedKeeps(s, t);
      case Drained(t) => DrainedKeeps(s, t);
      case ReadChunk(t, size, late) => ReadKeeps(s, t, size, late);
      case Fail(t, cause) => FailKeeps(s, t, cause);
      case Serve(conn, executed, reply) => ServeStepKeeps(s, conn, executed, reply);
      case Deliver(conn, size) => DeliverKeeps(s, conn, size);
      case Noise(conn, b) => NoiseKeeps(s, conn, b);
    }
  }

  lemma InitialKeeps(memory: map<nat, nat>)
    ensures Inv(Initial(memory))
  {
    StartTurns(memory);
    StartBooks(memory);
    hide Turns, Books;
    assert LiveStream(Initial(memory), None);
  }

  lemma StartTurns(memory: map<nat, nat>)
    ensures Turns(Initial(memory)) && Current(Initial(memory)) == None
  {
    hide Runs.Inv;
    Runs.RunsKeep([]);
    assert Inside(Start) == None;
  }

  lemma StartBooks(memory: map<nat, nat>)
    ensures Books(Initial(memory), None)
  {
    hide Next, Answered, Truthful;
  }

  lemma {:induction false} RunsKeep(memory: map<nat, nat>, steps: seq<Step>)
    ensures Inv(AsyncClient.After(memory, steps))
  {
    if steps == [] {
      InitialKeeps(memory);
    } else {
      RunsKeep(memory, steps[..|steps| - 1]);
      StepKeeps(AsyncClient.After(memory, steps[..|steps| - 1]), steps[|steps| - 1]);
    }
  }

  lemma ReachedKeeps(memory: map<nat, nat>, s: State)
    requires Reached(memory, s)
    ensures Inv(s)
  {
    hide Inv, AsyncClient.After;
    var steps :| AsyncClient.After(memory, steps) == s;
    RunsKeep(memory, steps);
  }
}
