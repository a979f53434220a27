/**
 The async TCP client, its turn lock, its connections and the PLC, as one step system.

 A step is the code between two awaits of one task, or an action of the PLC or of the network. Replies carry no
 identifier; requests are numbered here so that it can be said which request a reply answers. An event that cannot
 happen in a state leaves it unchanged, so every sequence of events is a run.
 */
module AsyncClient {
  import opened Wrappers
  import opened Accumulator
  import opened AsyncAdmission
  import opened LineReceiver
  import Bits
  import Protocol

  const RESPONSE_CAP := 65_536
  const OK_CAP := 2
  const READ_CHUNK := 8192

  // ---------------------------------------------------------------- commands and calls

  /** One exchange. All but `ReadWord` expect the reply `OK`; `Control` is any such command without a memory effect. */
  datatype Command =
    | ReadWord(addr: nat)
    | WriteWord(addr: nat, value: nat)
    | MonitorBits(count: nat)
    | MonitorWords(formats: seq<string>)
    | Control

  predicate StateChanging(c: Command) { !c.ReadWord? }

  /** A public call: one command, a bit write, an aggregate of reads, or connect. */
  datatype Op =
    | Perform(command: Command)
    | WriteBit(addr: nat, index: nat, value: bool)
    | ReadAll(addrs: seq<nat>)
    | Connect

  /** The next exchange of a call that already has the results `got`. */
  function Next(op: Op, got: seq<nat>): Option<Command> {
    match op
    case Perform(c) => if got == [] then Some(c) else None
    case WriteBit(a, i, v) =>
      if got == [] then Some(ReadWord(a))
      else if |got| == 1 then Some(WriteWord(a, Bits.WithBit(got[0], i, v)))
      else None
    case ReadAll(addrs) => if |got| < |addrs| then Some(ReadWord(addrs[|got|])) else None
    case Connect => None
  }

  datatype Reason = Timeout | Cancelled | Closed | NotConnected | Transport | Malformed

  /** `Crashed` is an exception the client does not type. */
  datatype Outcome =
    | Success(values: seq<nat>)
    | PlcError
    | Failed(reason: Reason)
    | OutcomeUnknown(reason: Reason)
    | Crashed

  /** Where the task of a call stands: at an await, or about to run to the next one. */
  datatype Stage = Queued | Ready | Connecting | Draining(req: nat) | Receiving(req: nat) | Over(outcome: Outcome)

  /** `write` is the state-changing request of the call, once sent. */
  datatype Call = Call(op: Op, stage: Stage, got: seq<nat>, write: Option<nat>)

  // ---------------------------------------------------------------- requests, connections, PLC

  /** `seen` is the memory the PLC answered from. */
  datatype Status = Sent | Served(executed: bool, reply: seq<Byte>, seen: map<nat, nat>)

  /** `line` is the line an exchange accepted for this request. */
  datatype Request = Request(command: Command, conn: nat, ticket: nat, status: Status, line: Option<seq<Byte>>)

  /** Requests not yet served, reply bytes under way, and bytes in the reader's own buffer. */
  datatype Conn = Conn(inbox: seq<nat>, wire: seq<Byte>, arrived: seq<Byte>)

  /** `log` lists the executed requests in order; `origin` is the memory the run started from. */
  datatype State = State(
    turns: System,
    calls: map<nat, Call>,
    live: Option<nat>,
    rx: Acc,
    bits: nat,
    words: seq<string>,
    conns: seq<Conn>,
    requests: seq<Request>,
    memory: map<nat, nat>,
    log: seq<nat>,
    origin: map<nat, nat>)

  function Initial(memory: map<nat, nat>): State {
    State(Start, map[], None, Fresh, 0, [], [], [], memory, [], memory)
  }

  /** The accumulator is consistent and the live connection exists. */
  predicate WellFormed(s: State) { ValidAcc(s.rx) && (s.live.Some? ==> s.live.value < |s.conns|) }

  function Word(memory: map<nat, nat>, addr: nat): nat { if addr in memory then memory[addr] else 0 }

  function Effect(memory: map<nat, nat>, c: Command): map<nat, nat> {
    match c
    case WriteWord(a, v) => memory[a := v]
    case _ => memory
  }

  // ---------------------------------------------------------------- reading a reply line

  function AsciiText(line: seq<Byte>): Option<string> {
    if exists i :: 0 <= i < |line| && line[i] >= 128 then None
    else Some(seq(|line|, i requires 0 <= i < |line| => line[i] as char))
  }

  datatype Verdict = Bad | Refused | Accepted(value: nat)

  /** Decoding, the PLC error check, and then either the `OK` check or the parse of one unsigned word. */
  function Judge(c: Command, line: seq<Byte>): Verdict {
    match AsciiText(line)
    case None => Bad
    case Some(text) =>
      if Protocol.IsErrorCode(text) then Refused
      else if StateChanging(c) then (if text == "OK" then Accepted(0) else Bad)
      else
        var tokens := Protocol.SplitTokens(text);
        if |tokens| != 1 then Bad
        else
          match Protocol.ParseScalar(tokens[0], Protocol.U)
          case Some(Number(n)) => if n >= 0 then Accepted(n) else Bad
          case _ => Bad
  }

  /** The first line in `s`, terminated or not. */
  function Body(s: seq<Byte>): seq<Byte> { Core(s)[..BodyLength(Core(s))] }

  /**
   What an honest PLC answers: no confirmation of a command it did not execute and no error for one it did; and a word
   read, if it decodes, is the word in memory. Steps do not assume this: a PLC may answer anything in one line.
   */
  predicate Honest(memory: map<nat, nat>, c: Command, executed: bool, reply: seq<Byte>) {
    && (StateChanging(c) && Judge(c, Body(reply)).Accepted? ==> executed)
    && (Judge(c, Body(reply)).Refused? ==> !executed)
    && (c.ReadWord? && Judge(c, Body(reply)).Accepted? ==> Judge(c, Body(reply)).value == Word(memory, c.addr))
  }

  // ---------------------------------------------------------------- atomic pieces of the client

  /** `_close_unlocked` */
  function Retire(s: State): State {
    s.(live := None, rx := ResetTo(s.rx, true), bits := 0, words := [])
  }

  /** The call is over and its task leaves the lock. */
  function Finish(s: State, t: nat, outcome: Outcome): State
    requires t in s.calls && t in s.turns.holder
  {
    s.(turns := AsyncAdmission.Apply(s.turns, Exit(s.turns.holder[t])),
       calls := s.calls[t := s.calls[t].(stage := Over(outcome))])
  }

  /** An exchange that raises: the transport is retired, and a command that may have been sent is of unknown outcome. */
  function Raise(s: State, t: nat, reason: Reason, maySent: bool): State
    requires t in s.calls && t in s.turns.holder
  {
    Finish(Retire(s), t, if maySent then OutcomeUnknown(reason) else Failed(reason))
  }

  predicate OwnerInvalidated(s: State) { ActiveWasInvalidated(s.turns.lock) }

  /** An exchange ended with a result: the next exchange, or the end of the call. */
  function Continue(s: State, t: nat, value: nat): State
    requires t in s.calls && t in s.turns.holder
  {
    var got := s.calls[t].got + [value];
    if Next(s.calls[t].op, got) == None then Finish(s, t, Success(got))
    else s.(calls := s.calls[t := s.calls[t].(stage := Ready, got := got)])
  }

  /** `register_monitor_bits` and `register_monitor_words` after their OK. */
  function Remember(s: State, c: Command): State {
    match c
    case MonitorBits(n) => s.(bits := n)
    case MonitorWords(formats) => s.(words := formats)
    case _ => s
  }

  /** A response accepted by `_exchange`, decoded; `late` when the deadline check during decoding fires. */
  function Decode(s: State, t: nat, c: Command, line: seq<Byte>, late: bool): State
    requires t in s.calls && t in s.turns.holder
  {
    if late then Raise(s, t, Timeout, StateChanging(c))
    else
      match Judge(c, line)
      case Bad => Raise(s, t, Malformed, StateChanging(c))
      case Refused => Finish(s, t, PlcError)
      case Accepted(value) => Continue(Remember(s, c), t, value)
  }

  /** `_exchange` up to its first await: reject unowned input, then write the request. */
  function Begin(s: State, t: nat, c: Command): State
    requires t in s.calls && t in s.turns.holder && WellFormed(s)
  {
    if s.live == None then Finish(s, t, Failed(NotConnected))
    else
      var conn := s.live.value;
      var (rx, more) := DiscardFrom(AppendTo(s.rx, s.conns[conn].arrived));
      var s1 := s.(rx := rx, conns := s.conns[conn := s.conns[conn].(arrived := [])]);
      if more then Raise(s1, t, Malformed, false)
      else
        var r := |s.requests|;
        s1.(conns := s1.conns[conn := s1.conns[conn].(inbox := s1.conns[conn].inbox + [r])],
            requests := s.requests + [Request(c, conn, t, Sent, None)],
            calls := s.calls[t := s.calls[t].(stage := Draining(r),
                                              write := if StateChanging(c) then Some(r) else s.calls[t].write)])
  }

  /** The longest response body a command accepts. */
  function Limit(c: Command): nat { if StateChanging(c) then OK_CAP else RESPONSE_CAP }

  /** A read completed with `chunk`: append, scan, and act on what the scan found. */
  function TakeChunk(s: State, t: nat, r: nat, chunk: seq<Byte>, late: bool): State
    requires t in s.calls && t in s.turns.holder && r < |s.requests| && WellFormed(s)
  {
    var c := s.requests[r].command;
    AppendValid(s.rx, chunk);
    var rx := AppendTo(s.rx, chunk);
    var limit := Limit(c);
    var s1 := s.(rx := TakeFrom(rx, limit));
    match TakeOutcome(rx, limit)
    case Line(line, _) =>
      if OwnerInvalidated(s) then Raise(s1, t, Reason.Closed, StateChanging(c))
      else Decode(s1.(requests := s.requests[r := s.requests[r].(line := Some(line))]), t, c, line, late)
    case Incomplete =>
      // The loop reads again from the reader of the client, which close has removed.
      if s.live == None then Finish(Retire(s1), t, Crashed) else s1
    case _ => Raise(s1, t, Malformed, StateChanging(c))
  }

  /** What ends a wait from outside. */
  datatype Cause = TimedOut | Interrupted | Broken

  function ReasonOf(cause: Cause, closed: bool): Reason {
    match cause
    case TimedOut => Timeout
    case Interrupted => if closed then Reason.Closed else Reason.Cancelled
    case Broken => if closed then Reason.Closed else Transport
  }

  // ---------------------------------------------------------------- the events

  datatype Step =
    | CallOp(task: Task, op: Op)
    | Wake(ticket: nat)
    | CancelWait(ticket: nat)
    | CloseClient
    | Go(ticket: nat)
    | Connected(ticket: nat)
    | Drained(ticket: nat)
    | ReadChunk(ticket: nat, size: nat, late: bool)
    | Fail(ticket: nat, cause: Cause)
    | Serve(conn: nat, executed: bool, reply: seq<Byte>)
    | Deliver(conn: nat, size: nat)
    | Noise(conn: nat, b: Byte)

  predicate At(s: State, t: nat, stage: Stage) { t in s.calls && t in s.turns.holder && s.calls[t].stage == stage }

  /** The task of `t` awaits something on behalf of a request it sent. */
  predicate InExchange(s: State, t: nat) {
    && t in s.calls && t in s.turns.holder
    && (s.calls[t].stage.Draining? || s.calls[t].stage.Receiving?)
    && s.calls[t].stage.req < |s.requests|
  }

  predicate ValidOp(op: Op) {
    match op
    case Perform(WriteWord(_, v)) => v < 0x1_0000
    case WriteBit(_, index, _) => index < 16
    case _ => true
  }

  predicate Possible(s: State, e: Step) {
    match e
    case CallOp(task, op) =>
      AsyncAdmission.Possible(s.turns, Enter(task)) && s.turns.lock.owner != Some(task) && ValidOp(op)
    case Wake(t) => t in s.calls && AsyncAdmission.Possible(s.turns, Resume(t))
    case CancelWait(t) => t in s.calls && AsyncAdmission.Possible(s.turns, Cancel(t))
    case CloseClient => true
    case Go(t) => At(s, t, Ready)
    case Connected(t) => At(s, t, Connecting)
    case Drained(t) => InExchange(s, t) && s.calls[t].stage.Draining?
    case ReadChunk(t, size, _) =>
      && InExchange(s, t) && s.calls[t].stage.Receiving?
      && s.requests[s.calls[t].stage.req].conn < |s.conns|
      && 0 < size <= READ_CHUNK && size <= |s.conns[s.requests[s.calls[t].stage.req].conn].arrived|
    case Fail(t, _) => InExchange(s, t) || At(s, t, Connecting)
    case Serve(conn, executed, reply) =>
      && conn < |s.conns| && s.conns[conn].inbox != [] && s.conns[conn].inbox[0] < |s.requests|
      && OnlyLine(reply)
    case Deliver(conn, size) => conn < |s.conns| && size <= |s.conns[conn].wire|
    case Noise(conn, b) => conn < |s.conns| && IsSep(b)
  }

  function WithConn(s: State, conn: nat, c: Conn): State
    requires conn < |s.conns|
  {
    s.(conns := s.conns[conn := c])
  }

  function Happen(s: State, e: Step): State
    requires Possible(s, e) && WellFormed(s)
  {
    match e
    case CallOp(task, op) =>
      var t, turns := s.turns.lock.nextTicket, AsyncAdmission.Apply(s.turns, Enter(task));
      s.(turns := turns,
         calls := s.calls[t := Call(op, if turns.lock.owner == Some(task) then Ready else Queued, [], None)])
    case Wake(t) =>
      s.(turns := AsyncAdmission.Apply(s.turns, Resume(t)),
         calls := s.calls[t := s.calls[t].(stage := if s.turns.lock.futures[t] == Granted then Ready
                                                    else Over(Failed(Reason.Closed)))])
    case CancelWait(t) =>
      s.(turns := AsyncAdmission.Apply(s.turns, Cancel(t)),
         calls := s.calls[t := s.calls[t].(stage := Over(Failed(Reason.Cancelled)))])
    case CloseClient => Retire(s.(turns := AsyncAdmission.Apply(s.turns, Close)))
    case Go(t) =>
      if s.calls[t].op.Connect? then
        if s.live.Some? then Finish(s, t, Success([]))
        else s.(calls := s.calls[t := s.calls[t].(stage := Connecting)])
      else
        (match Next(s.calls[t].op, s.calls[t].got)
         case None => Finish(s, t, Success(s.calls[t].got))
         case Some(c) => Begin(s, t, c))
    case Connected(t) =>
      if OwnerInvalidated(s) then Finish(s, t, Failed(Reason.Closed))
      else
        var joined := s.(live := Some(|s.conns|), conns := s.conns + [Conn([], [], [])], rx := ResetTo(s.rx, false));
        Finish(joined, t, Success([]))
    case Drained(t) =>
      var r := s.calls[t].stage.req;
      if s.live == None then
        Raise(s, t, if OwnerInvalidated(s) then Reason.Closed else NotConnected, StateChanging(s.requests[r].command))
      else s.(calls := s.calls[t := s.calls[t].(stage := Receiving(r))])
    case ReadChunk(t, size, late) =>
      var r := s.calls[t].stage.req;
      var conn := s.requests[r].conn;
      var arrived := s.conns[conn].arrived;
      TakeChunk(WithConn(s, conn, s.conns[conn].(arrived := arrived[size..])), t, r, arrived[..size], late)
    case Fail(t, cause) =>
      if s.calls[t].stage.Connecting? then Finish(s, t, Failed(ReasonOf(cause, false)))
      else Raise(s, t, ReasonOf(cause, OwnerInvalidated(s)), StateChanging(s.requests[s.calls[t].stage.req].command))
    case Serve(conn, executed, reply) =>
      var c := s.conns[conn];
      var r := c.inbox[0];
      WithConn(s, conn, c.(inbox := c.inbox[1..], wire := c.wire + reply))
      .(requests := s.requests[r := s.requests[r].(status := Served(executed, reply, s.memory))],
        memory := if executed then Effect(s.memory, s.requests[r].command) else s.memory,
        log := if executed then s.log + [r] else s.log)
    case Deliver(conn, size) =>
      var c := s.conns[conn];
      WithConn(s, conn, c.(wire := c.wire[size..], arrived := c.arrived + c.wire[..size]))
    case Noise(conn, b) =>
      var c := s.conns[conn];
      WithConn(s, conn, c.(wire := c.wire + [b]))
  }

  function Apply(s: State, e: Step): State { if WellFormed(s) && Possible(s, e) then Happen(s, e) else s }

  function After(memory: map<nat, nat>, steps: seq<Step>): State {
    if steps == [] then Initial(memory) else Apply(After(memory, steps[..|steps| - 1]), steps[|steps| - 1])
  }

  /** A state some run from this PLC memory reaches. */
  ghost predicate Reached(memory: map<nat, nat>, s: State) { exists steps :: After(memory, steps) == s }
}
