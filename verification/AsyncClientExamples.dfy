/** Two runs: a write that succeeds, and a close during a reply that leaves the caller with an untyped exception. */
module AsyncClientExamples {
  import opened Wrappers
  import opened Accumulator
  import opened LineReceiver
  import opened AsyncClient
  import Admission = AsyncAdmission
  import Theorems = AsyncClientTheorems
  import Plc = AsyncClientPlc
  import Protocol

  const Write := WriteWord(5, 7)
  const OkLine: seq<Byte> := [79, 75, 13]

  lemma Starts()
    ensures Reached(map[], Initial(map[]))
  {
    assert AsyncClient.After(map[], []) == Initial(map[]);
  }

  lemma ReachedNext(s: State, e: Step)
    requires Reached(map[], s)
    ensures Reached(map[], AsyncClient.Apply(s, e))
  {
    var steps :| AsyncClient.After(map[], steps) == s;
    Theorems.AfterStep(map[], steps, e);
  }

  /** Task 1 owns the lock with ticket `t`. */
  predicate Turn(s: State, t: nat) {
    && s.turns.lock.owner == Some(1) && s.turns.lock.queue == [] && s.turns.lock.depth == 1
    && s.turns.lock.nextTicket == t + 1 && s.turns.lock.generation == 0 && s.turns.lock.ownerGeneration == 0
    && s.turns.latest == map[1 := t] && t in s.turns.fate && s.turns.fate[t] == Admission.Running
    && t in s.turns.holder && s.turns.holder[t] == 1 && s.turns.granted != []
    && s.turns.granted[|s.turns.granted| - 1] == t
  }

  predicate Idle(s: State) {
    && s.turns.lock.owner == None && s.turns.lock.queue == [] && s.turns.lock.depth == 0
    && s.turns.lock.nextTicket == 1 && s.turns.lock.generation == 0
    && s.turns.latest == map[1 := 0] && 0 in s.turns.fate && s.turns.fate[0].Ended?
    && s.live == Some(0) && s.conns == [Conn([], [], [])] && s.rx == Fresh && s.requests == [] && s.log == []
  }

  lemma Begun() returns (s: State)
    ensures Reached(map[], s) && Turn(s, 0) && At(s, 0, Connecting)
    ensures s.live == None && s.conns == [] && s.rx == Fresh && s.requests == [] && s.log == []
  {
    hide Reached, AsyncClient.After;
    var s0 := Initial(map[]);
    Starts();
    var s1 := AsyncClient.Apply(s0, CallOp(1, Op.Connect));
    ReachedNext(s0, CallOp(1, Op.Connect));
    s := AsyncClient.Apply(s1, Go(0));
    ReachedNext(s1, Go(0));
  }

  lemma Opened() returns (s: State)
    ensures Reached(map[], s) && Idle(s)
  {
    hide Reached;
    var s0 := Begun();
    s := AsyncClient.Apply(s0, Connected(0));
    ReachedNext(s0, Connected(0));
  }

  /** The write was sent and drained, and waits for its reply. */
  predicate Awaits(s: State) {
    && Turn(s, 1) && At(s, 1, Receiving(0)) && s.calls[1].op == Perform(Write) && s.calls[1].got == []
    && s.live == Some(0) && |s.conns| == 1 && s.rx == Fresh && |s.requests| == 1
    && s.requests[0].command == Write && s.requests[0].conn == 0 && s.requests[0].ticket == 1
  }

  lemma Called() returns (s: State)
    ensures Reached(map[], s) && Turn(s, 1) && At(s, 1, Ready) && s.calls[1].op == Perform(Write)
    ensures s.calls[1].got == []
    ensures s.live == Some(0) && s.conns == [Conn([], [], [])] && s.rx == Fresh && s.requests == [] && s.log == []
  {
    hide Reached;
    var s0 := Opened();
    s := AsyncClient.Apply(s0, CallOp(1, Perform(Write)));
    ReachedNext(s0, CallOp(1, Perform(Write)));
  }

  lemma Sends() returns (s: State)
    ensures Reached(map[], s) && Turn(s, 1) && At(s, 1, Draining(0)) && s.calls[1].op == Perform(Write)
    ensures s.calls[1].got == []
    ensures s.live == Some(0) && s.conns == [Conn([0], [], [])] && s.rx == Fresh && s.log == []
    ensures s.requests == [Request(Write, 0, 1, Sent, None)] && s.calls[1].write == Some(0)
  {
    hide Turn, Reached, Admission.Apply, Admission.Happen, Admission.Possible;
    var s0 := Called();
    assert DiscardFrom(AppendTo(Fresh, [])) == (Fresh, false);
    hide DiscardFrom, AppendTo;
    assert AsyncClient.Happen(s0, Go(1)) == Begin(s0, 1, Write);
    s := AsyncClient.Apply(s0, Go(1));
    ReachedNext(s0, Go(1));
    assert s0.conns[0].inbox + [0] == [0];
    assert s.conns[0] == Conn([0], [], []);
    SameTurn(s0, s, 1);
  }

  lemma SameTurn(s: State, s': State, t: nat)
    requires Turn(s, t) && s'.turns == s.turns
    ensures Turn(s', t)
  {
  }

  lemma Drains() returns (s: State)
    ensures Reached(map[], s) && Awaits(s) && s.conns[0] == Conn([0], [], []) && s.requests[0].status == Sent
    ensures s.log == []
  {
    hide Turn, Reached, Admission.Apply, Admission.Happen, Admission.Possible;
    var s0 := Sends();
    s := AsyncClient.Apply(s0, Drained(1));
    ReachedNext(s0, Drained(1));
    SameTurn(s0, s, 1);
  }

  const Body2: seq<Byte> := [79, 75]

  lemma ReadsOk()
    ensures Core(OkLine) == OkLine && BodyLength(OkLine) == 2
    ensures OnlyLine(OkLine) && Body(OkLine) == Body2 && Judge(Write, Body2) == Accepted(0)
  {
    SepPrefixIs(OkLine, 0);
    BodyLengthIs(OkLine, 2);
    hide SepPrefix, BodyLength;
    assert OkLine[..2] == Body2;
    assert AsciiText(Body2).value == "OK";
    hide AsciiText;
    assert !Protocol.IsErrorCode("OK");
  }

  lemma IsServed() returns (s: State)
    ensures Reached(map[], s) && Awaits(s) && s.conns[0] == Conn([], OkLine, [])
    ensures s.log == [0] && s.requests[0].status.Served? && s.requests[0].status.executed
  {
    hide Turn, Reached, Admission.Apply, Admission.Happen, Admission.Possible, Judge, OnlyLine, Body;
    var s0 := Drains();
    ReadsOk();
    s := AsyncClient.Apply(s0, Serve(0, true, OkLine));
    ReachedNext(s0, Serve(0, true, OkLine));
    SameTurn(s0, s, 1);
  }

  lemma Arrives(size: nat) returns (s: State)
    requires size <= 3
    ensures Reached(map[], s) && Awaits(s) && s.conns[0] == Conn([], OkLine[size..], OkLine[..size])
    ensures s.log == [0] && s.requests[0].status.Served? && s.requests[0].status.executed
  {
    hide Turn, Reached, Admission.Apply, Admission.Happen, Admission.Possible;
    var s0 := IsServed();
    s := AsyncClient.Apply(s0, Deliver(0, size));
    ReachedNext(s0, Deliver(0, size));
    SameTurn(s0, s, 1);
  }

  /** A run in which a write is sent, executed, confirmed and returned. */
  lemma AWriteSucceeds() returns (s: State)
    ensures Reached(map[], s) && 1 in s.calls && s.calls[1].stage == Over(Success([0])) && s.log == [0]
  {
    hide Reached, Judge, Admission.Possible, Admission.Apply, Core, TakeFrom, TakeOutcome, AppendTo;
    var s0 := Arrives(3);
    ReadsOk();
    assert OkLine[..3] == OkLine;
    TakesOk();
    s := AsyncClient.Apply(s0, ReadChunk(1, 3, false));
    ReachedNext(s0, ReadChunk(1, 3, false));
    Plc.ReadHappens(s0, 1, 3, false);
    assert !OwnerInvalidated(s0);
    hide Body;
    assert s0.calls[1].got + [0] == [0];
    assert Next(s0.calls[1].op, [0]) == None;
  }

  lemma TakesOk()
    ensures TakeOutcome(AppendTo(Fresh, OkLine), OK_CAP) == Line(Body2, 3)
  {
    SepPrefixIs(OkLine, 0);
    BodyLengthIs(OkLine, 2);
    hide SepPrefix, BodyLength;
    assert AppendTo(Fresh, OkLine).pending == OkLine;
    assert OkLine[0..] == OkLine && OkLine[2..] == [13];
  }

  lemma Closes() returns (s: State)
    ensures Reached(map[], s) && At(s, 1, Receiving(0)) && s.live == None && |s.conns| == 1
    ensures s.conns[0].arrived == [79]
    ensures |s.requests| == 1 && s.requests[0].command == Write && s.requests[0].conn == 0
    ensures s.rx == Fresh && s.log == [0]
  {
    hide Reached, Judge;
    var s0 := Arrives(1);
    s := AsyncClient.Apply(s0, CloseClient);
    ReachedNext(s0, CloseClient);
  }

  /** A run in which the PLC executed the write, yet the caller gets an exception the client does not type. */
  lemma ACloseMidReplyCrashes() returns (s: State)
    ensures Reached(map[], s) && 1 in s.calls && s.calls[1].stage == Over(Crashed) && s.log == [0]
  {
    hide Reached, Judge, Admission.Apply, Admission.Possible;
    var s0 := Closes();
    s := AsyncClient.Apply(s0, ReadChunk(1, 1, false));
    ReachedNext(s0, ReadChunk(1, 1, false));
  }
}
