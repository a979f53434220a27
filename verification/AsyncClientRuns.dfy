/** The invariant of the client, its turn lock, its connections and the PLC, event by event. */
module AsyncClientRuns {
  import opened Wrappers
  import opened Accumulator
  import opened AsyncAdmission
  import opened LineReceiver
  import opened AsyncClient
  import Runs = AsyncAdmissionRuns
  import Bits

  // ---------------------------------------------------------------- turns and calls

  predicate InTurn(stage: Stage) { !stage.Queued? && !stage.Over? }

  predicate Exchanging(stage: Stage) { stage.Draining? || stage.Receiving? }

  /** The ticket whose task is inside the lock. */
  function Inside(turns: System): Option<nat> {
    if turns.granted == [] then None
    else
      var t := Runs.Last(turns.granted);
      if t in turns.fate && turns.fate[t] == Fate.Running then Some(t) else None
  }

  /** The request of the exchange under way. */
  function Current(s: State): Option<nat> {
    match Inside(s.turns)
    case None => None
    case Some(t) => if t in s.calls && Exchanging(s.calls[t].stage) then Some(s.calls[t].stage.req) else None
  }

  /** Each call stands where the lock says it does; entries are not nested. */
  ghost predicate Turns(s: State) {
    && Runs.Inv(s.turns)
    && (forall t: nat :: t in s.calls <==> t < s.turns.lock.nextTicket)
    && (forall t: nat :: t in s.calls && t in s.turns.fate ==>
          && (s.calls[t].stage.Queued? <==> s.turns.fate[t] == Fate.Waiting)
          && (s.calls[t].stage.Over? <==> s.turns.fate[t].Ended?))
    && s.turns.lock.depth <= 1
  }

  // ---------------------------------------------------------------- requests and what became of them

  /** Every request belongs to a call; a call sends at most one state-changing request and remembers it. */
  ghost predicate Requests(s: State) {
    && (forall r :: 0 <= r < |s.requests| ==>
          && s.requests[r].conn < |s.conns| && s.requests[r].ticket in s.calls
          && (StateChanging(s.requests[r].command) ==> s.calls[s.requests[r].ticket].write == Some(r)))
    && (forall t: nat :: t in s.calls && s.calls[t].write.Some? ==>
          && s.calls[t].write.value < |s.requests|
          && s.requests[s.calls[t].write.value].ticket == t
          && StateChanging(s.requests[s.calls[t].write.value].command))
    && (forall t: nat :: t in s.calls && Exchanging(s.calls[t].stage) ==>
          && s.calls[t].stage.req < |s.requests|
          && s.requests[s.calls[t].stage.req].ticket == t
          && Next(s.calls[t].op, s.calls[t].got) == Some(s.requests[s.calls[t].stage.req].command)
          && (s.calls[t].write.Some? ==> StateChanging(s.requests[s.calls[t].stage.req].command)))
    && (forall t: nat ::
          t in s.calls && (s.calls[t].stage.Queued? || s.calls[t].stage.Ready? || s.calls[t].stage.Connecting?)
          ==> s.calls[t].write == None)
    && (forall t: nat :: t in s.calls && s.calls[t].stage.Queued? ==> s.calls[t].got == [])
    && (forall t: nat :: t in s.calls && s.calls[t].stage.Ready? && Writes(s.calls[t].op) ==>
          Next(s.calls[t].op, s.calls[t].got).Some?)
  }

  /** A connection has at most one request it was not served yet. */
  ghost predicate Inboxes(s: State) {
    forall c :: 0 <= c < |s.conns| ==>
      && |s.conns[c].inbox| <= 1
      && (s.conns[c].inbox != [] ==>
            var r := s.conns[c].inbox[0];
            r < |s.requests| && s.requests[r].conn == c && s.requests[r].status == Sent)
  }

  /** The log lists each executed request once. */
  ghost predicate Logged(s: State) {
    && (forall i, j :: 0 <= i < j < |s.log| ==> s.log[i] != s.log[j])
    && (forall i :: 0 <= i < |s.log| ==> s.log[i] < |s.requests| && Executed(s.requests[s.log[i]]))
    && (forall r :: 0 <= r < |s.requests| && Executed(s.requests[r]) ==> r in s.log)
  }

  predicate Executed(q: Request) { q.status.Served? && q.status.executed }

  /** Every accepted line is the line the PLC sent for that very request. */
  ghost predicate Correlated(s: State) {
    forall r :: 0 <= r < |s.requests| && s.requests[r].line.Some? ==>
      s.requests[r].status.Served? && s.requests[r].line.value == Body(s.requests[r].status.reply)
  }

  /** The PLC served the request and answered it honestly. */
  predicate Answered(q: Request) {
    q.status.Served? && Honest(q.status.seen, q.command, q.status.executed, q.status.reply)
  }

  /** The PLC has been honest so far. */
  ghost predicate Trusted(s: State) {
    forall r :: 0 <= r < |s.requests| && s.requests[r].status.Served? ==> Answered(s.requests[r])
  }

  function StreamOf(s: State, c: nat): seq<Byte>
    requires c < |s.conns|
  {
    s.rx.pending + (s.conns[c].arrived + s.conns[c].wire)
  }

  /**
   The live stream. Between exchanges it holds separators only, all outside the accumulator. During one it holds
   separators until the PLC serves the request, then exactly the reply line and separators.
   */
  ghost predicate LiveStream(s: State, current: Option<nat>) {
    && WellFormed(s)
    && (s.live == None ==> s.rx.pending == [])
    && (s.live.Some? ==>
          var c := s.live.value;
          match current
          case None => s.rx.pending == [] && s.conns[c].inbox == [] && AllSep(StreamOf(s, c))
          case Some(r) =>
            && r == |s.requests| - 1 && s.requests[r].conn == c && s.requests[r].line == None
            && match s.requests[r].status
               case Sent => s.conns[c].inbox == [r] && AllSep(StreamOf(s, c))
               case Served(_, reply, _) =>
                 s.conns[c].inbox == [] && OnlyLine(StreamOf(s, c)) && Body(StreamOf(s, c)) == Body(reply))
  }

  /** A transport missing during an exchange was removed by a close, and a close during a turn leaves none behind. */
  ghost predicate Transports(s: State, current: Option<nat>) {
    && (s.live == None && current.Some? ==> OwnerInvalidated(s))
    && (OwnerInvalidated(s) ==> s.live == None)
    && (forall t: nat :: t in s.calls && s.calls[t].stage.Connecting? ==> s.live == None && s.calls[t].op.Connect?)
  }

  /** The client accepted a reply that confirms the request. */
  predicate Confirmed(q: Request) { q.line.Some? && Judge(q.command, q.line.value).Accepted? }

  /** The count last confirmed on the live connection, zero if none was. */
  function LastBits(requests: seq<Request>, live: Option<nat>): nat {
    if requests == [] then 0
    else
      var q := requests[|requests| - 1];
      if q.command.MonitorBits? && live == Some(q.conn) && Confirmed(q) then q.command.count
      else LastBits(requests[..|requests| - 1], live)
  }

  function LastWords(requests: seq<Request>, live: Option<nat>): seq<string> {
    if requests == [] then []
    else
      var q := requests[|requests| - 1];
      if q.command.MonitorWords? && live == Some(q.conn) && Confirmed(q) then q.command.formats
      else LastWords(requests[..|requests| - 1], live)
  }

  /** Registered monitors are what the PLC last confirmed on the live connection. */
  ghost predicate Monitors(s: State) {
    s.bits == LastBits(s.requests, s.live) && s.words == LastWords(s.requests, s.live)
  }

  // ---------------------------------------------------------------- outcomes

  /** The caller was told that the outcome is unknown, or got an untyped exception. */
  predicate Doubtful(call: Call) {
    call.stage.Over? && (call.stage.outcome.OutcomeUnknown? || call.stage.outcome.Crashed?)
  }

  /** A state-changing request not yet served belongs to the exchange under way or to a doubtful call. */
  ghost predicate Stale(s: State, current: Option<nat>) {
    forall r :: 0 <= r < |s.requests| && s.requests[r].status == Sent && StateChanging(s.requests[r].command) ==>
      current == Some(r) || (s.requests[r].ticket in s.calls && Doubtful(s.calls[s.requests[r].ticket]))
  }

  /** The commands a call must have had executed when it returns normally. */
  predicate Writes(op: Op) { op.WriteBit? || (op.Perform? && StateChanging(op.command)) }

  /** What an outcome says about the state-changing request of the call, if the PLC answered that one honestly. */
  ghost predicate Truthful(s: State, call: Call, outcome: Outcome) {
    match outcome
    case Success(_) =>
      && (Writes(call.op) ==> call.write.Some?)
      && (call.write.Some? ==>
            && call.write.value < |s.requests| && s.requests[call.write.value].status.Served?
            && (Answered(s.requests[call.write.value]) ==> s.requests[call.write.value].status.executed))
    case PlcError =>
      && (call.op.Perform? && Writes(call.op) ==> call.write.Some?)
      && (call.write.Some? ==>
            && call.write.value < |s.requests| && s.requests[call.write.value].status.Served?
            && (Answered(s.requests[call.write.value]) ==> !s.requests[call.write.value].status.executed))
    case Failed(_) => call.write == None
    case OutcomeUnknown(_) => call.write.Some?
    case Crashed => true
  }

  ghost predicate Outcomes(s: State) {
    forall t: nat :: t in s.calls && s.calls[t].stage.Over? ==> Truthful(s, s.calls[t], s.calls[t].stage.outcome)
  }

  /** The values a call has obtained, or returned. */
  function Values(call: Call): seq<nat> {
    if call.stage.Over? && call.stage.outcome.Success? then call.stage.outcome.values else call.got
  }

  /** The line accepted for this request of the call `t` decodes to `value`. */
  predicate Yields(q: Request, t: nat, c: Option<Command>, value: nat) {
    q.ticket == t && c == Some(q.command) && q.line.Some? && Judge(q.command, q.line.value) == Accepted(value)
  }

  /** Each value is what the reply to the corresponding exchange of the call says. */
  ghost predicate Backed(s: State, t: nat, op: Op, values: seq<nat>) {
    forall i :: 0 <= i < |values| ==> Obtained(s, t, Next(op, values[..i]), values[i])
  }

  ghost predicate Obtained(s: State, t: nat, c: Option<Command>, value: nat) {
    exists r :: 0 <= r < |s.requests| && Yields(s.requests[r], t, c, value)
  }

  /** A normal return leaves no exchange of the call undone, and every value is backed. */
  ghost predicate Returned(s: State, t: nat, outcome: Outcome)
    requires t in s.calls
  {
    outcome.Success? ==> Next(s.calls[t].op, outcome.values) == None && Backed(s, t, s.calls[t].op, outcome.values)
  }

  ghost predicate Results(s: State) {
    forall t: nat :: t in s.calls ==>
      && Backed(s, t, s.calls[t].op, Values(s.calls[t]))
      && (s.calls[t].stage.Over? ==> Returned(s, t, s.calls[t].stage.outcome))
  }

  // ---------------------------------------------------------------- memory

  /** One operation done atomically. */
  function Atomic(memory: map<nat, nat>, op: Op): map<nat, nat> {
    match op
    case Perform(c) => Effect(memory, c)
    case WriteBit(a, i, v) => memory[a := Bits.WithBit(Word(memory, a), i, v)]
    case _ => memory
  }

  /** The PLC executed the state-changing request of the call. */
  predicate Effective(s: State, t: nat) {
    && t in s.calls && s.calls[t].write.Some? && s.calls[t].write.value < |s.requests|
    && Executed(s.requests[s.calls[t].write.value])
  }

  /** The operations that took effect, done atomically in grant order. */
  function Replay(s: State, granted: seq<nat>): map<nat, nat> {
    if granted == [] then s.origin
    else
      var t := granted[|granted| - 1];
      var m := Replay(s, granted[..|granted| - 1]);
      if Effective(s, t) then Atomic(m, s.calls[t].op) else m
  }

  ghost predicate Quiet(s: State) { forall t: nat :: t in s.calls ==> !Doubtful(s.calls[t]) }

  /** No outcome is in doubt, and the PLC has been honest. */
  ghost predicate Calm(s: State) { Quiet(s) && Trusted(s) }

  /** The grants before the ticket `t`. */
  function Before(granted: seq<nat>, t: nat): seq<nat> {
    if granted == [] || Runs.Last(granted) < t then granted else Before(granted[..|granted| - 1], t)
  }

  /** The PLC served the request from the memory that the operations granted before its call had left. */
  predicate Snapshot(s: State, q: Request) {
    q.status.Served? && q.status.seen == Replay(s, Before(s.turns.granted, q.ticket))
  }

  predicate FromGrant(s: State, q: Request) { s.turns.granted != [] && q.ticket <= Runs.Last(s.turns.granted) }

  /** Only granted calls send requests, and while all is calm every accepted read is such a snapshot. */
  ghost predicate Serial(s: State) {
    && (forall r :: 0 <= r < |s.requests| ==> FromGrant(s, s.requests[r]))
    && (Calm(s) ==>
          forall r :: 0 <= r < |s.requests| && s.requests[r].line.Some? && s.requests[r].command.ReadWord? ==>
            Snapshot(s, s.requests[r]))
  }

  ghost predicate Memory(s: State, current: Option<nat>) { Serial(s) && Replayed(s, current) }

  /** While all is calm, memory is the replay, and a bit write under way has read the word as it is. */
  ghost predicate Replayed(s: State, current: Option<nat>) {
    Calm(s) ==>
      && s.memory == Replay(s, s.turns.granted)
      && (forall t: nat :: t in s.calls && BitRead(s.calls[t]) && !Effective(s, t) ==>
            s.calls[t].got[0] == Word(s.memory, s.calls[t].op.addr))
      && (current.Some? && current.value < |s.requests| ==> ReadIsFresh(s, s.requests[current.value]))
  }

  /** A bit write that has read its word and not yet returned. */
  predicate BitRead(call: Call) { InTurn(call.stage) && call.op.WriteBit? && |call.got| == 1 }

  /** A read is served from the memory as it still is. */
  predicate ReadIsFresh(s: State, q: Request) { q.command.ReadWord? && q.status.Served? ==> q.status.seen == s.memory }

  // ---------------------------------------------------------------- the invariant

  /** What is said of calls, requests and the log alone. */
  ghost predicate Books(s: State, current: Option<nat>) {
    Requests(s) && Inboxes(s) && Logged(s) && Correlated(s) && Results(s) && Outcomes(s) && Stale(s, current)
  }

  ghost predicate Rest(s: State, current: Option<nat>) {
    Books(s, current) && LiveStream(s, current) && Transports(s, current) && Monitors(s) && Memory(s, current)
  }

  ghost predicate Inv(s: State) { Turns(s) && Rest(s, Current(s)) }

  // ---------------------------------------------------------------- turns

  /** A call that is in its turn is the only one, and its task can leave the lock. */
  lemma OnlyOneInTurn(s: State, t: nat)
    requires Turns(s) && t in s.calls && InTurn(s.calls[t].stage)
    ensures t in s.turns.holder && Inside(s.turns) == Some(t) && s.turns.lock.owner == Some(s.turns.holder[t])
    ensures s.turns.lock.depth == 1 && AsyncAdmission.Possible(s.turns, Exit(s.turns.holder[t]))
    ensures forall u :: u in s.calls && InTurn(s.calls[u].stage) ==> u == t
  {
    assert s.turns.fate[t] == Fate.Running;
  }

  /** The lock when the only task inside leaves it. */
  lemma LeaveTurns(turns: System, t: nat)
    requires Runs.Inv(turns) && turns.lock.depth == 1 && Inside(turns) == Some(t) && t in turns.holder
    requires AsyncAdmission.Possible(turns, Exit(turns.holder[t])) && turns.lock.owner == Some(turns.holder[t])
    ensures var turns' := AsyncAdmission.Apply(turns, Exit(turns.holder[t]));
            && Runs.Inv(turns') && turns'.lock.nextTicket == turns.lock.nextTicket && turns'.lock.depth <= 1
            && turns'.fate == turns.fate[t := Ended(Ending.Finished)] && Inside(turns') == None
            && (turns'.granted == turns.granted
                || exists u :: turns'.granted == turns.granted + [u] && u in turns.fate && turns.fate[u] == Fate.Waiting
                               && u < turns.lock.nextTicket && Runs.Last(turns.granted) < u)
            && !ActiveWasInvalidated(turns'.lock)
  {
    var task := turns.holder[t];
    Runs.ExitKeeps(turns, task);
    Runs.FullExit(turns, task);
    if turns.lock.queue != [] {
      var u := turns.lock.queue[0].ticket;
      assert Runs.Grant(Runs.Freed(turns, Finished)).granted == turns.granted + [u];
    }
  }

  /** Leaving the lock ends the turn; at most one queued ticket is granted, and does not run yet. */
  lemma FinishTurns(s: State, t: nat, outcome: Outcome)
    requires Turns(s) && t in s.calls && InTurn(s.calls[t].stage) && t in s.turns.holder
    ensures var s' := Finish(s, t, outcome);
            && Turns(s') && Current(s') == None && !OwnerInvalidated(s')
            && (s'.turns.granted == s.turns.granted
                || exists u :: s'.turns.granted == s.turns.granted + [u] && u in s.calls && s.calls[u].stage.Queued?
                               && s.turns.granted != [] && Runs.Last(s.turns.granted) < u)
  {
    hide Runs.Inv;
    OnlyOneInTurn(s, t);
    LeaveTurns(s.turns, t);
  }
}
