/**
 What holds of every run of the async client, its turn lock, its connections and a PLC that sends at most one line per
 request, after it. Where the content of a reply matters, the theorem names the honesty it needs.
 */
module AsyncClientTheorems {
  import opened Wrappers
  import opened Accumulator
  import opened AsyncAdmission
  import opened LineReceiver
  import opened AsyncClient
  import opened AsyncClientRuns
  import Plc = AsyncClientPlc
  import Exchange = AsyncClientExchange
  import Runs = AsyncAdmissionRuns
  import Bits

  // ---------------------------------------------------------------- correlation

  /**
   Replies carry no identifier, yet a line accepted for a request is the line the PLC sent for that very request; and
   between exchanges the live stream holds separators only, all outside the accumulator.
   */
  lemma RepliesAnswerTheirRequests(memory: map<nat, nat>, s: State)
    requires Reached(memory, s)
    ensures && (forall r :: 0 <= r < |s.requests| && s.requests[r].line.Some? ==>
                  s.requests[r].status.Served? && s.requests[r].line.value == Body(s.requests[r].status.reply))
            && (s.live.Some? && Current(s) == None ==>
                  && s.live.value < |s.conns| && s.rx.pending == [] && s.conns[s.live.value].inbox == []
                  && AllSep(s.conns[s.live.value].arrived + s.conns[s.live.value].wire))
  {
    hide Inv, Reached, Correlated, LiveStream, Body, AllSep, Current;
    Plc.ReachedKeeps(memory, s);
    Parts(s);
    LinesAnswer(s);
    if s.live.Some? && Current(s) == None { IdleStream(s); }
  }

  lemma Parts(s: State)
    requires Inv(s)
    ensures Correlated(s) && LiveStream(s, Current(s))
  {
    hide Turns, Requests, Inboxes, Logged, Correlated, Results, Outcomes, Stale, LiveStream, Transports, Monitors;
    hide Memory;
  }

  lemma LinesAnswer(s: State)
    requires Correlated(s)
    ensures forall r :: 0 <= r < |s.requests| && s.requests[r].line.Some? ==>
              s.requests[r].status.Served? && s.requests[r].line.value == Body(s.requests[r].status.reply)
  {
    hide Answered, Body;
  }

  lemma IdleStream(s: State)
    requires LiveStream(s, None) && s.live.Some?
    ensures s.live.value < |s.conns| && s.rx.pending == [] && s.conns[s.live.value].inbox == []
    ensures AllSep(s.conns[s.live.value].arrived + s.conns[s.live.value].wire)
  {
    assert StreamOf(s, s.live.value) == s.conns[s.live.value].arrived + s.conns[s.live.value].wire;
  }

  function Addresses(op: Op): seq<nat> {
    match op
    case Perform(ReadWord(a)) => [a]
    case ReadAll(addrs) => addrs
    case _ => []
  }

  predicate WasRead(s: State, t: nat, addr: nat, value: nat) {
    exists r :: 0 <= r < |s.requests| && ReadThere(s, r, t, addr, value)
  }

  /**
   `r` is a read of `addr` by the call `t`, `value` is what the PLC's reply to it says, and, if the PLC answered that
   request honestly, the word it held there when it served it.
   */
  predicate ReadThere(s: State, r: nat, t: nat, addr: nat, value: nat) {
    && r < |s.requests| && s.requests[r].ticket == t && s.requests[r].command == ReadWord(addr)
    && s.requests[r].status.Served?
    && Judge(s.requests[r].command, Body(s.requests[r].status.reply)) == Accepted(value)
    && (Answered(s.requests[r]) ==> value == Word(s.requests[r].status.seen, addr))
  }

  /**
   A read returns one value per address, each what the PLC replied to that read of that call: the word it held then, if
   it answered that one honestly.
   */
  lemma ReadsReturnWhatWasServed(memory: map<nat, nat>, s: State, t: nat)
    requires Reached(memory, s)
    ensures t in s.calls && s.calls[t].stage.Over? && s.calls[t].stage.outcome.Success? ==>
              var op, values := s.calls[t].op, s.calls[t].stage.outcome.values;
              && (Addresses(op) != [] ==> |values| == |Addresses(op)|)
              && forall i :: 0 <= i < |values| && i < |Addresses(op)| ==>
                   WasRead(s, t, Addresses(op)[i], values[i])
  {
    Plc.ReachedKeeps(memory, s);
    hide Turns, Requests, Inboxes, Logged, Outcomes, Stale, LiveStream, Transports, Monitors, Memory;
    if t in s.calls && s.calls[t].stage.Over? && s.calls[t].stage.outcome.Success? {
      var op, values := s.calls[t].op, s.calls[t].stage.outcome.values;
      assert Backed(s, t, op, values);
      CompleteReads(s, t, op, values);
      hide Results, Judge, Backed, Next, OnlyLine, Body;
      forall i | 0 <= i < |values| && i < |Addresses(op)| ensures WasRead(s, t, Addresses(op)[i], values[i]) {
        NextRead(op, values, i);
        ObtainedWasServed(s, t, Addresses(op)[i], values, i);
      }
    }
  }

  lemma CompleteReads(s: State, t: nat, op: Op, values: seq<nat>)
    requires Next(op, values) == None && Backed(s, t, op, values)
    ensures Addresses(op) != [] ==> |values| == |Addresses(op)|
  {
    hide Judge;
    if values != [] {
      assert Obtained(s, t, Next(op, values[..|values| - 1]), values[|values| - 1]);
    }
  }

  lemma NextRead(op: Op, values: seq<nat>, i: nat)
    requires i < |values| && i < |Addresses(op)|
    ensures Next(op, values[..i]) == Some(ReadWord(Addresses(op)[i]))
  {
  }

  lemma ObtainedWasServed(s: State, t: nat, addr: nat, values: seq<nat>, i: nat)
    requires Correlated(s) && i < |values| && t in s.calls && Backed(s, t, s.calls[t].op, values)
    requires Next(s.calls[t].op, values[..i]) == Some(ReadWord(addr))
    ensures WasRead(s, t, addr, values[i])
  {
    hide Judge, Next, OnlyLine, Body;
    assert Obtained(s, t, Some(ReadWord(addr)), values[i]);
    var r :| 0 <= r < |s.requests| && Yields(s.requests[r], t, Some(ReadWord(addr)), values[i]);
    assert ReadThere(s, r, t, addr, values[i]);
  }

  // ---------------------------------------------------------------- at most once, honestly reported

  /** No call sends two state-changing requests, and the PLC executes no request twice. */
  lemma AtMostOnce(memory: map<nat, nat>, s: State)
    requires Reached(memory, s)
    ensures && (forall t: nat, q: nat, r: nat :: Sends(s, t, q) && Sends(s, t, r) ==> q == r)
            && (forall i, j :: 0 <= i < j < |s.log| ==> s.log[i] != s.log[j])
  {
    Plc.ReachedKeeps(memory, s);
    hide Turns, Inboxes, Correlated, Results, Outcomes, Stale, LiveStream, Transports, Monitors, Memory, Next;
  }

  /** The state-changing request `r` was sent by the call `t`. */
  predicate Sends(s: State, t: nat, r: nat) {
    r < |s.requests| && s.requests[r].ticket == t && StateChanging(s.requests[r].command)
  }

  /**
   What a finished call may conclude about its state-changing command, if the PLC answered that very request honestly,
   whatever it did with others. A normal return: the PLC executed it, exactly once. An error code: what was sent will
   never be executed; a single command was sent, and a bit write was sent or refused at its read. Any other failure but
   an unknown outcome: it was never sent. Unknown: it was sent.
   */
  lemma OutcomesAreHonest(memory: map<nat, nat>, s: State, t: nat)
    requires Reached(memory, s)
    ensures t in s.calls && s.calls[t].stage.Over? ==>
              match s.calls[t].stage.outcome
              case Success(_) => Writes(s.calls[t].op) ==> exists r: nat :: Sends(s, t, r) && Done(s, r)
              case PlcError =>
                && (s.calls[t].op.Perform? && Writes(s.calls[t].op) ==> exists r: nat :: Sends(s, t, r))
                && forall r: nat :: Sends(s, t, r) ==> Declined(s, r)
              case Failed(_) => forall r: nat :: !Sends(s, t, r)
              case OutcomeUnknown(_) => exists r: nat :: Sends(s, t, r)
              case Crashed => true
  {
    Plc.ReachedKeeps(memory, s);
    hide Turns, Inboxes, Correlated, Results, Stale, LiveStream, Transports, Monitors, Memory, Next;
    if t in s.calls && s.calls[t].stage.Over? {
      TruthAboutRequests(s, t);
    }
  }

  /** The PLC served the request; if it answered it honestly, it executed it. */
  predicate Done(s: State, r: nat)
    requires r < |s.requests|
  {
    s.requests[r].status.Served? && (Answered(s.requests[r]) ==> Executed(s.requests[r]) && r in s.log)
  }

  /** The PLC served the request; if it answered it honestly, it did not execute it. */
  predicate Declined(s: State, r: nat)
    requires r < |s.requests|
  {
    s.requests[r].status.Served? && (Answered(s.requests[r]) ==> r !in s.log)
  }

  lemma TruthAboutRequests(s: State, t: nat)
    requires Requests(s) && Logged(s) && t in s.calls && s.calls[t].stage.Over?
    requires Truthful(s, s.calls[t], s.calls[t].stage.outcome)
    ensures match s.calls[t].stage.outcome
            case Success(_) => Writes(s.calls[t].op) ==> exists r: nat :: Sends(s, t, r) && Done(s, r)
            case PlcError =>
              && (s.calls[t].op.Perform? && Writes(s.calls[t].op) ==> exists r: nat :: Sends(s, t, r))
              && forall r: nat :: Sends(s, t, r) ==> Declined(s, r)
            case Failed(_) => forall r: nat :: !Sends(s, t, r)
            case OutcomeUnknown(_) => exists r: nat :: Sends(s, t, r)
            case Crashed => true
  {
    hide Next;
    forall r: nat | Sends(s, t, r) ensures s.calls[t].write == Some(r) {}
    if s.calls[t].write.Some? {
      assert Sends(s, t, s.calls[t].write.value);
    }
  }

  /** `later` is reached from `s` by going on with some run that reached `s`. */
  ghost predicate LeadsTo(memory: map<nat, nat>, s: State, later: State) {
    exists steps, more :: AsyncClient.After(memory, steps) == s && AsyncClient.After(memory, steps + more) == later
  }

  /** A reported outcome is final: nothing that happens later changes it, so what it says holds of every later state. */
  lemma OutcomesAreFinal(memory: map<nat, nat>, s: State, later: State, t: nat)
    requires LeadsTo(memory, s, later)
    ensures t in s.calls && s.calls[t].stage.Over? ==> t in later.calls && later.calls[t] == s.calls[t]
  {
    hide AsyncClient.After;
    var steps, more :| AsyncClient.After(memory, steps) == s && AsyncClient.After(memory, steps + more) == later;
    if t in s.calls && s.calls[t].stage.Over? { FinalOverRun(memory, steps, more, t); }
  }

  lemma {:induction false} FinalOverRun(memory: map<nat, nat>, steps: seq<Step>, more: seq<Step>, t: nat)
    requires t in AsyncClient.After(memory, steps).calls && AsyncClient.After(memory, steps).calls[t].stage.Over?
    ensures t in AsyncClient.After(memory, steps + more).calls
    ensures AsyncClient.After(memory, steps + more).calls[t] == AsyncClient.After(memory, steps).calls[t]
  {
    hide AsyncClient.After, AsyncClient.Apply, Rest, Turns;
    if more == [] {
      assert steps + more == steps;
    } else {
      var n := |more| - 1;
      FinalOverRun(memory, steps, more[..n], t);
      assert steps + more == steps + more[..n] + [more[n]];
      AfterStep(memory, steps + more[..n], more[n]);
      Plc.RunsKeep(memory, steps + more[..n]);
      OverIsFinal(AsyncClient.After(memory, steps + more[..n]), more[n], t);
    }
  }

  lemma AfterStep(memory: map<nat, nat>, steps: seq<Step>, e: Step)
    ensures AsyncClient.After(memory, steps + [e]) == AsyncClient.Apply(AsyncClient.After(memory, steps), e)
  {
    assert (steps + [e])[..|steps + [e]| - 1] == steps;
  }

  /** The grants and the closes since the last one stay, or a new grant clears the closes. */
  predicate GrantsClear(turns: System, turns': System) {
    || turns'.closesSinceGrant == 0
    || (turns'.granted == turns.granted && turns'.closesSinceGrant == turns.closesSinceGrant)
  }

  lemma EventClears(turns: System, event: AsyncAdmission.Event)
    requires !event.Close?
    ensures GrantsClear(turns, AsyncAdmission.Apply(turns, event))
  {
    hide Abandon, AsyncAdmission.Release, Enqueue;
  }

  /** Only the call `t` is concerned, and it does not end in an untyped exception. */
  ghost predicate Acts(s: State, s': State, t: nat) {
    && GrantsClear(s.turns, s'.turns) && s'.origin == s.origin
    && t in s'.calls && s'.calls == s.calls[t := s'.calls[t]] && s'.calls[t].stage != Over(Crashed)
  }

  lemma RaiseActs(s: State, t: nat, reason: Reason, maySent: bool)
    requires t in s.calls && t in s.turns.holder
    ensures Acts(s, Raise(s, t, reason, maySent), t)
  {
    EventClears(s.turns, Exit(s.turns.holder[t]));
    hide AsyncAdmission.Apply, ResetTo;
  }

  lemma ContinueActs(s: State, t: nat, value: nat)
    requires t in s.calls && t in s.turns.holder
    ensures Acts(s, Continue(s, t, value), t)
  {
    EventClears(s.turns, Exit(s.turns.holder[t]));
    hide AsyncAdmission.Apply, Next;
  }

  lemma DecodeActs(s: State, t: nat, c: Command, line: seq<Byte>, late: bool)
    requires t in s.calls && t in s.turns.holder
    ensures Acts(s, Decode(s, t, c, line, late), t)
  {
    EventClears(s.turns, Exit(s.turns.holder[t]));
    hide AsyncAdmission.Apply, Judge, Raise, Continue;
    RaiseActs(s, t, Timeout, StateChanging(c));
    RaiseActs(s, t, Malformed, StateChanging(c));
    if Judge(c, line).Accepted? { ContinueActs(Remember(s, c), t, Judge(c, line).value); }
  }

  lemma BeginActs(s: State, t: nat, c: Command)
    requires t in s.calls && t in s.turns.holder && WellFormed(s)
    ensures Acts(s, Begin(s, t, c), t)
  {
    EventClears(s.turns, Exit(s.turns.holder[t]));
    hide AsyncAdmission.Apply, DiscardFrom, AppendTo, ResetTo;
  }

  lemma OutcomeActs(s: State, t: nat, r: nat, size: nat, late: bool)
    requires t in s.calls && t in s.turns.holder && WellFormed(s) && r < |s.requests| && s.requests[r].conn < |s.conns|
    requires size <= |s.conns[s.requests[r].conn].arrived| && s.calls[t].stage != Over(Crashed)
    ensures var s' := Plc.Outcome(s, t, r, size, late);
            var found := TakeOutcome(Exchange.Appended(s, r, size), Limit(s.requests[r].command));
            && (found == Incomplete && s.live == None ==>
                  s' == Finish(Retire(Exchange.AfterScan(s, r, size)), t, Crashed))
            && (!(found == Incomplete && s.live == None) ==> Acts(s, s', t))
  {
    hide TakeOutcome, TakeFrom, Exchange.Appended, Limit, Decode, Raise, Finish, Retire;
    var s1 := Exchange.AfterScan(s, r, size);
    match TakeOutcome(Exchange.Appended(s, r, size), Limit(s.requests[r].command)) {
      case Line(line, _) =>
        DecodeActs(Exchange.Recorded(s1, r, line), t, s.requests[r].command, line, late);
        RaiseActs(s1, t, Reason.Closed, StateChanging(s.requests[r].command));
      case Incomplete =>
      case _ => RaiseActs(s1, t, Malformed, StateChanging(s.requests[r].command));
    }
  }

  /** The call an event concerns. */
  function Actor(s: State, e: Step): Option<nat> {
    match e
    case CallOp(_, _) => Some(s.turns.lock.nextTicket)
    case Wake(t) => Some(t)
    case CancelWait(t) => Some(t)
    case Go(t) => Some(t)
    case Connected(t) => Some(t)
    case Drained(t) => Some(t)
    case ReadChunk(t, _, _) => Some(t)
    case Fail(t, _) => Some(t)
    case _ => None
  }

  lemma GoActs(s: State, t: nat)
    requires WellFormed(s) && AsyncClient.Possible(s, Go(t))
    ensures Acts(s, AsyncClient.Happen(s, Go(t)), t)
  {
    EventClears(s.turns, Exit(s.turns.holder[t]));
    hide AsyncAdmission.Apply, Begin, Next;
    match Next(s.calls[t].op, s.calls[t].got)
    case Some(c) => BeginActs(s, t, c);
    case None =>
  }

  lemma EventActs(s: State, e: Step)
    requires WellFormed(s) && AsyncClient.Possible(s, e) && !e.ReadChunk?
    ensures var s' := AsyncClient.Happen(s, e);
            if Actor(s, e).Some? then Acts(s, s', Actor(s, e).value)
            else s'.calls == s.calls && s'.origin == s.origin && (e.CloseClient? || s'.turns == s.turns)
  {
    if e.Go? {
      GoActs(s, e.ticket);
    } else if e.Fail? || e.Drained? || e.Connected? {
      ResumptionActs(s, e);
    } else {
      hide AsyncAdmission.Apply, AsyncAdmission.Possible, ResetTo, Effect, Honest;
      match e
      case CallOp(task, _) => EventClears(s.turns, Enter(task));
      case Wake(t) => EventClears(s.turns, Resume(t));
      case CancelWait(t) => EventClears(s.turns, Cancel(t));
      case _ =>
    }
  }

  lemma ResumptionActs(s: State, e: Step)
    requires WellFormed(s) && AsyncClient.Possible(s, e) && (e.Fail? || e.Drained? || e.Connected?)
    ensures Acts(s, AsyncClient.Happen(s, e), e.ticket)
  {
    EventClears(s.turns, Exit(s.turns.holder[e.ticket]));
    hide AsyncAdmission.Apply, ResetTo;
  }

  /** The chunk `size` of the connection of `t` completes no line and exceeds no limit. */
  predicate Inconclusive(s: State, t: nat, size: nat)
    requires WellFormed(s) && AsyncClient.Possible(s, ReadChunk(t, size, false))
  {
    var r := s.calls[t].stage.req;
    TakeOutcome(Exchange.Appended(s, r, size), Limit(s.requests[r].command)) == Incomplete
  }

  lemma ReadActs(s: State, t: nat, size: nat, late: bool)
    requires WellFormed(s) && AsyncClient.Possible(s, ReadChunk(t, size, late))
    ensures var s' := AsyncClient.Happen(s, ReadChunk(t, size, late));
            && GrantsClear(s.turns, s'.turns)
            && s'.origin == s.origin && t in s'.calls && s'.calls == s.calls[t := s'.calls[t]]
            && (s'.calls[t].stage == Over(Crashed) <==> s.live == None && Inconclusive(s, t, size))
  {
    Plc.ReadHappens(s, t, size, late);
    hide AsyncClient.Happen, AsyncAdmission.Apply, TakeOutcome, TakeFrom, Exchange.Appended, Limit, Plc.Outcome;
    EventClears(s.turns, Exit(s.turns.holder[t]));
    OutcomeActs(s, t, s.calls[t].stage.req, size, late);
  }

  /** An event of another call, of the PLC or of the network leaves the call `t` alone. */
  lemma OverIsFinal(s: State, e: Step, t: nat)
    requires Turns(s) && t in s.calls && s.calls[t].stage.Over?
    ensures t in AsyncClient.Apply(s, e).calls && AsyncClient.Apply(s, e).calls[t] == s.calls[t]
  {
    hide Runs.Inv, AsyncClient.Happen, Honest;
    if WellFormed(s) && AsyncClient.Possible(s, e) {
      assert Actor(s, e) != Some(t);
      hide AsyncClient.Possible, Turns;
      match e
      case ReadChunk(u, size, late) => ReadActs(s, u, size, late);
      case _ => EventActs(s, e);
    }
  }

  // ---------------------------------------------------------------- no lost updates

  predicate Succeeded(calls: map<nat, Call>, t: nat) {
    t in calls && calls[t].stage.Over? && calls[t].stage.outcome.Success?
  }

  /** The operations that returned normally, run one after another in grant order. */
  function Sequential(memory: map<nat, nat>, calls: map<nat, Call>, granted: seq<nat>): map<nat, nat> {
    if granted == [] then memory
    else
      var t := granted[|granted| - 1];
      var m := Sequential(memory, calls, granted[..|granted| - 1]);
      if Succeeded(calls, t) then Atomic(m, calls[t].op) else m
  }

  /**
   Concurrent bit writes, writes and reads are atomic: with a PLC that has been honest, while no outcome is unknown and
   no exchange is under way, memory is what running the successful operations one by one in grant order makes it.
   */
  lemma NoLostUpdates(memory: map<nat, nat>, s: State)
    requires Reached(memory, s) && Trusted(s)
    ensures Quiet(s) && Current(s) == None ==> s.memory == Sequential(memory, s.calls, s.turns.granted)
  {
    Plc.ReachedKeeps(memory, s);
    ReachedOrigin(memory, s);
    if Quiet(s) && Current(s) == None {
      hide Inboxes, Logged, Correlated, Results, Stale, LiveStream, Transports, Monitors, Memory, Next, Runs.Inv;
      forall t: nat ensures Settles(s, t) { IdleSettles(s, t); }
      assert s.memory == Replay(s, s.turns.granted) by { IdleMemory(s); }
      ReplayIsSequential(s, s.turns.granted);
    }
  }

  lemma ReachedOrigin(memory: map<nat, nat>, s: State)
    requires Reached(memory, s)
    ensures s.origin == memory
  {
    hide AsyncClient.After;
    var steps :| AsyncClient.After(memory, steps) == s;
    OriginStays(memory, steps);
  }

  lemma IdleMemory(s: State)
    requires Memory(s, None) && Calm(s)
    ensures s.memory == Replay(s, s.turns.granted)
  {
  }

  /** The PLC executed the command of a writing call exactly when the call returned normally. */
  ghost predicate Settles(s: State, t: nat) {
    t in s.calls ==>
      if Writes(s.calls[t].op) then Effective(s, t) <==> Succeeded(s.calls, t)
      else forall m :: Atomic(m, s.calls[t].op) == m
  }

  lemma IdleSettles(s: State, t: nat)
    requires Requests(s) && Outcomes(s) && Turns(s) && Calm(s) && Current(s) == None
    ensures Settles(s, t)
  {
    hide Next, Runs.Inv;
    if t in s.calls && !s.calls[t].stage.Over? && !s.calls[t].stage.Queued? {
      OnlyOneInTurn(s, t);
      assert s.calls[t].write == None;
    }
  }

  lemma {:induction false} ReplayIsSequential(s: State, granted: seq<nat>)
    requires forall i :: 0 <= i < |granted| ==> Settles(s, granted[i])
    ensures Replay(s, granted) == Sequential(s.origin, s.calls, granted)
  {
    hide Atomic;
    if granted != [] {
      ReplayIsSequential(s, granted[..|granted| - 1]);
      assert Settles(s, granted[|granted| - 1]);
    }
  }

  /** The ticket `u` was granted before a ticket that has itself been granted: its call is over. */
  lemma EarlierGrantIsOver(s: State, i: nat, t: nat)
    requires Turns(s) && s.turns.granted != [] && t <= Runs.Last(s.turns.granted)
    requires i < |s.turns.granted| && s.turns.granted[i] < t
    ensures var u := s.turns.granted[i]; u in s.calls && s.calls[u].stage.Over?
  {
  }

  lemma OverSettles(s: State, t: nat)
    requires Requests(s) && Outcomes(s) && Calm(s) && t in s.calls && s.calls[t].stage.Over?
    ensures Settles(s, t)
  {
    hide Next;
  }

  /** The grants before a granted ticket are a part of the grants, all earlier than it. */
  lemma {:induction false} BeforeIsPrefix(granted: seq<nat>, t: nat)
    requires Runs.Increasing(granted)
    ensures var b := Before(granted, t);
            |b| <= |granted| && b == granted[..|b|] && forall i :: 0 <= i < |b| ==> b[i] < t
  {
    if granted != [] && Runs.Last(granted) >= t { BeforeIsPrefix(granted[..|granted| - 1], t); }
  }

  /** What a snapshot shows is what the operations that returned normally before the ticket left. */
  lemma SnapshotIsSequential(s: State, t: nat)
    requires Turns(s) && Requests(s) && Outcomes(s) && Calm(s)
    requires s.turns.granted != [] && t <= Runs.Last(s.turns.granted)
    ensures Replay(s, Before(s.turns.granted, t)) == Sequential(s.origin, s.calls, Before(s.turns.granted, t))
  {
    hide Runs.Inv, Turns, Requests, Outcomes, Calm, Settles, Atomic;
    var granted := s.turns.granted;
    Exchange.GrantsIncrease(s);
    BeforeIsPrefix(granted, t);
    var b := Before(granted, t);
    forall i | 0 <= i < |b| ensures Settles(s, b[i]) {
      EarlierGrantIsOver(s, i, t);
      OverSettles(s, b[i]);
    }
    ReplayIsSequential(s, b);
  }

  /** The memory that the operations granted before the call `t`, and returned normally, had left. */
  function MemoryBefore(memory: map<nat, nat>, s: State, t: nat): map<nat, nat> {
    Sequential(memory, s.calls, Before(s.turns.granted, t))
  }

  /**
   Reads take their place in the same order: with a PLC that has been honest, while no outcome is unknown, every value a
   finished read returned is the word left by the successful operations granted before it. The values of an aggregate
   are one snapshot.
   */
  lemma ReadsTakeTheirTurn(memory: map<nat, nat>, s: State, t: nat)
    requires Reached(memory, s) && Quiet(s) && Trusted(s) && t in s.calls && Succeeded(s.calls, t)
    ensures var op, values := s.calls[t].op, s.calls[t].stage.outcome.values;
            forall i :: 0 <= i < |values| && i < |Addresses(op)| ==>
              values[i] == Word(MemoryBefore(memory, s, t), Addresses(op)[i])
  {
    hide Inv, Reached, Quiet, Trusted, MemoryBefore;
    Plc.ReachedKeeps(memory, s);
    ReachedOrigin(memory, s);
    var op, values := s.calls[t].op, s.calls[t].stage.outcome.values;
    forall i | 0 <= i < |values| && i < |Addresses(op)|
      ensures values[i] == Word(MemoryBefore(memory, s, t), Addresses(op)[i])
    {
      ReadInTurn(s, t, i);
    }
  }

  lemma ReadInTurn(s: State, t: nat, i: nat)
    requires Inv(s) && Calm(s) && t in s.calls && Succeeded(s.calls, t)
    requires i < |s.calls[t].stage.outcome.values| && i < |Addresses(s.calls[t].op)|
    ensures s.calls[t].stage.outcome.values[i] == Word(MemoryBefore(s.origin, s, t), Addresses(s.calls[t].op)[i])
  {
    hide Turns, Requests, Inboxes, Logged, Correlated, Outcomes, Stale, LiveStream, Transports, Monitors, Serial, Calm;
    hide Judge, Next, Replayed, Addresses, Snapshot;
    var op, values := s.calls[t].op, s.calls[t].stage.outcome.values;
    assert Obtained(s, t, Next(op, values[..i]), values[i]);
    NextRead(op, values, i);
    ObtainedInTurn(s, t, Addresses(op)[i], values[i]);
    SnapshotIsSequential(s, t);
  }

  lemma ObtainedInTurn(s: State, t: nat, addr: nat, value: nat)
    requires Correlated(s) && Serial(s) && Calm(s) && Obtained(s, t, Some(ReadWord(addr)), value)
    ensures s.turns.granted != [] && t <= Runs.Last(s.turns.granted)
    ensures value == Word(Replay(s, Before(s.turns.granted, t)), addr)
  {
    hide Judge, OnlyLine, Body, Replay, Quiet;
    var r :| 0 <= r < |s.requests| && Yields(s.requests[r], t, Some(ReadWord(addr)), value);
    assert Answered(s.requests[r]) && FromGrant(s, s.requests[r]) && Snapshot(s, s.requests[r]);
  }

  lemma {:induction false} OriginStays(memory: map<nat, nat>, steps: seq<Step>)
    ensures AsyncClient.After(memory, steps).origin == memory
  {
    if steps != [] {
      var before := AsyncClient.After(memory, steps[..|steps| - 1]);
      OriginStays(memory, steps[..|steps| - 1]);
      hide AsyncClient.Possible, AsyncClient.Happen;
      var e := steps[|steps| - 1];
      if WellFormed(before) && AsyncClient.Possible(before, e) {
        match e
        case ReadChunk(t, size, late) => ReadActs(before, t, size, late);
        case _ => EventActs(before, e);
      }
    }
  }

  /** Done atomically, a bit write changes one bit of one word. */
  lemma BitWriteChangesOneBit(memory: map<nat, nat>, addr: nat, index: nat, value: bool)
    requires Word(memory, addr) < 0x1_0000 && index < 16
    ensures var m := Atomic(memory, WriteBit(addr, index, value));
            && (forall j :: 0 <= j < 16 ==>
                  (Bits.Bit(Word(m, addr), j) <==> if j == index then value else Bits.Bit(Word(memory, addr), j)))
            && Word(m, addr) < 0x1_0000
            && forall a: nat :: a != addr ==> Word(m, a) == Word(memory, a)
  {
    Bits.WithBitOnly(Word(memory, addr), index, value);
  }

  // ---------------------------------------------------------------- monitors

  /** `r` is the last request of its kind that the PLC confirmed on the live connection. */
  predicate LatestBits(s: State, r: nat) {
    && r < |s.requests| && s.requests[r].command.MonitorBits? && s.live == Some(s.requests[r].conn)
    && Confirmed(s.requests[r])
    && forall q :: r < q < |s.requests| && s.requests[q].command.MonitorBits? && s.live == Some(s.requests[q].conn) ==>
         !Confirmed(s.requests[q])
  }

  predicate LatestWords(s: State, r: nat) {
    && r < |s.requests| && s.requests[r].command.MonitorWords? && s.live == Some(s.requests[r].conn)
    && Confirmed(s.requests[r])
    && forall q :: r < q < |s.requests| && s.requests[q].command.MonitorWords? && s.live == Some(s.requests[q].conn) ==>
         !Confirmed(s.requests[q])
  }

  /**
   In every reached state the registered monitors are exactly those of the latest registration the PLC confirmed on the
   connection that is live now, and none if there is no such registration. The PLC executed that registration, unless it
   lied about it.
   */
  lemma MonitorsAreConnectionScoped(memory: map<nat, nat>, s: State)
    requires Reached(memory, s)
    ensures forall r: nat :: LatestBits(s, r) ==> s.bits == s.requests[r].command.count && Done(s, r)
    ensures forall r: nat :: LatestWords(s, r) ==> s.words == s.requests[r].command.formats && Done(s, r)
    ensures s.bits != 0 ==> exists r: nat :: LatestBits(s, r)
    ensures s.words != [] ==> exists r: nat :: LatestWords(s, r)
  {
    hide Inv, Reached, Monitors, Correlated, Logged, Confirmed, Done;
    Plc.ReachedKeeps(memory, s);
    MonitorParts(s);
    forall r: nat | LatestBits(s, r) ensures s.bits == s.requests[r].command.count && Done(s, r) { BitsAre(s, r); }
    forall r: nat | LatestWords(s, r) ensures s.words == s.requests[r].command.formats && Done(s, r) { WordsAre(s, r); }
    hide LatestBits, LatestWords;
    MonitorsExist(s);
  }

  lemma MonitorsExist(s: State)
    requires Monitors(s)
    ensures s.bits != 0 ==> exists r: nat :: LatestBits(s, r)
    ensures s.words != [] ==> exists r: nat :: LatestWords(s, r)
  {
    hide Confirmed, LatestBits, LatestWords;
    assert s.requests[..|s.requests|] == s.requests;
    if s.bits != 0 { var r := BitsFrom(s, |s.requests|); }
    if s.words != [] { var r := WordsFrom(s, |s.requests|); }
  }

  lemma MonitorParts(s: State)
    requires Inv(s)
    ensures Monitors(s) && Correlated(s) && Logged(s)
  {
    hide Turns, Requests, Inboxes, Logged, Correlated, Results, Outcomes, Stale, LiveStream, Transports, Monitors;
    hide Memory;
  }

  /** An accepted reply to a registration means that the PLC, if honest about it, executed it. */
  lemma ConfirmedIsLogged(s: State, r: nat)
    requires Correlated(s) && Logged(s) && r < |s.requests| && Confirmed(s.requests[r])
    requires StateChanging(s.requests[r].command)
    ensures Done(s, r)
  {
    hide Judge, OnlyLine, Body;
  }

  lemma BitsAre(s: State, r: nat)
    requires Monitors(s) && Correlated(s) && Logged(s) && LatestBits(s, r)
    ensures s.bits == s.requests[r].command.count && Done(s, r)
  {
    hide Correlated, Logged, Confirmed, Done;
    ConfirmedIsLogged(s, r);
    LaterBitsAgree(s, r, |s.requests|);
    assert s.requests[..|s.requests|] == s.requests;
  }

  lemma {:induction false} LaterBitsAgree(s: State, r: nat, n: nat)
    requires LatestBits(s, r) && r < n <= |s.requests|
    ensures LastBits(s.requests[..n], s.live) == s.requests[r].command.count
  {
    hide Confirmed;
    assert s.requests[..n][..n - 1] == s.requests[..n - 1];
    if r < n - 1 { LaterBitsAgree(s, r, n - 1); }
  }

  lemma {:induction false} BitsFrom(s: State, n: nat) returns (r: nat)
    requires n <= |s.requests| && LastBits(s.requests[..n], s.live) == s.bits != 0
    requires forall q ::
      n <= q < |s.requests| && s.requests[q].command.MonitorBits? && s.live == Some(s.requests[q].conn) ==>
      !Confirmed(s.requests[q])
    ensures LatestBits(s, r)
  {
    hide Confirmed;
    assert s.requests[..n][..n - 1] == s.requests[..n - 1];
    var q := s.requests[n - 1];
    if q.command.MonitorBits? && s.live == Some(q.conn) && Confirmed(q) {
      r := n - 1;
    } else {
      r := BitsFrom(s, n - 1);
    }
  }

  lemma WordsAre(s: State, r: nat)
    requires Monitors(s) && Correlated(s) && Logged(s) && LatestWords(s, r)
    ensures s.words == s.requests[r].command.formats && Done(s, r)
  {
    hide Correlated, Logged, Confirmed, Done;
    ConfirmedIsLogged(s, r);
    LaterWordsAgree(s, r, |s.requests|);
    assert s.requests[..|s.requests|] == s.requests;
  }

  lemma {:induction false} LaterWordsAgree(s: State, r: nat, n: nat)
    requires LatestWords(s, r) && r < n <= |s.requests|
    ensures LastWords(s.requests[..n], s.live) == s.requests[r].command.formats
  {
    hide Confirmed;
    assert s.requests[..n][..n - 1] == s.requests[..n - 1];
    if r < n - 1 { LaterWordsAgree(s, r, n - 1); }
  }

  lemma {:induction false} WordsFrom(s: State, n: nat) returns (r: nat)
    requires n <= |s.requests| && LastWords(s.requests[..n], s.live) == s.words != []
    requires forall q ::
      n <= q < |s.requests| && s.requests[q].command.MonitorWords? && s.live == Some(s.requests[q].conn) ==>
      !Confirmed(s.requests[q])
    ensures LatestWords(s, r)
  {
    hide Confirmed;
    assert s.requests[..n][..n - 1] == s.requests[..n - 1];
    var q := s.requests[n - 1];
    if q.command.MonitorWords? && s.live == Some(q.conn) && Confirmed(q) {
      r := n - 1;
    } else {
      r := WordsFrom(s, n - 1);
    }
  }

  // ---------------------------------------------------------------- the untyped exception

  /** In an exchange, the transport is missing exactly when a close followed the grant of the turn. */
  lemma MissingMeansClosed(s: State, t: nat)
    requires Inv(s) && InExchange(s, t)
    ensures s.live == None <==> s.turns.closesSinceGrant > 0
  {
    Plc.FlightFacts(s, t);
    OnlyOneInTurn(s, t);
    hide Rest;
  }

  /**
   The one way a call can end without a typed outcome, after its command may have been sent: the client was closed
   during the turn of the call, and a chunk that had already arrived does not complete the reply.
   */
  lemma CrashesExactlyWhen(memory: map<nat, nat>, s: State, t: nat, size: nat, late: bool)
    requires Reached(memory, s) && WellFormed(s) && AsyncClient.Possible(s, ReadChunk(t, size, late))
    ensures var s' := AsyncClient.Apply(s, ReadChunk(t, size, late));
            && t in s'.calls
            && (s'.calls[t].stage == Over(Crashed) <==> s.turns.closesSinceGrant > 0 && Inconclusive(s, t, size))
  {
    hide Inv, Reached, AsyncClient.Happen, Inconclusive;
    Plc.ReachedKeeps(memory, s);
    Reading(s, t, size, late);
    MissingMeansClosed(s, t);
    hide AsyncClient.Possible;
    ReadActs(s, t, size, late);
  }

  lemma Reading(s: State, t: nat, size: nat, late: bool)
    requires AsyncClient.Possible(s, ReadChunk(t, size, late))
    ensures InExchange(s, t)
  {
  }

  /** The turn belongs to the call `t`, which is not over. */
  predicate HasTurn(s: State, t: nat) {
    s.turns.granted != [] && Runs.Last(s.turns.granted) == t && t in s.calls && !s.calls[t].stage.Over?
  }

  /** Only a close during the turn of `t` raises the count of closes, and a new grant clears it. */
  lemma ClosesAreCounted(s: State, e: Step, t: nat)
    requires Inv(s) && HasTurn(AsyncClient.Apply(s, e), t) && AsyncClient.Apply(s, e).turns.closesSinceGrant > 0
    ensures HasTurn(s, t) && (e.CloseClient? || s.turns.closesSinceGrant > 0)
  {
    hide Rest, Runs.Inv, AsyncClient.Happen, AsyncAdmission.Happen, AsyncAdmission.Possible;
    var s' := AsyncClient.Apply(s, e);
    StepTurns(s, e);
    if t in s.calls && s.calls[t].stage.Over? { OverIsFinal(s, e, t); }
    if t !in s.calls { GrantedIsKnown(s, t); }
  }

  /** What a step does to the grants: a close counts, a new grant clears the count, and nothing else touches either. */
  lemma StepTurns(s: State, e: Step)
    ensures var s' := AsyncClient.Apply(s, e);
            || GrantsClear(s.turns, s'.turns)
            || (e.CloseClient? && s'.turns.granted == s.turns.granted)
  {
    hide AsyncClient.Happen, AsyncClient.Possible, Inconclusive;
    if WellFormed(s) && AsyncClient.Possible(s, e) {
      match e
      case CloseClient => CloseTurns(s);
      case ReadChunk(t, size, late) => ReadActs(s, t, size, late);
      case _ => EventActs(s, e);
    }
  }

  lemma CloseTurns(s: State)
    requires WellFormed(s) && AsyncClient.Possible(s, CloseClient)
    ensures AsyncClient.Happen(s, CloseClient).turns.granted == s.turns.granted
  {
    hide Invalidated;
  }

  lemma GrantedIsKnown(s: State, t: nat)
    requires Turns(s) && s.turns.granted != [] && Runs.Last(s.turns.granted) == t
    ensures t in s.calls
  {
  }

  /** A close happened in the run while the turn belonged to the call `t`. */
  ghost predicate ClosedDuringTurn(memory: map<nat, nat>, steps: seq<Step>, t: nat) {
    exists i :: 0 <= i < |steps| && steps[i].CloseClient? && HasTurn(AsyncClient.After(memory, steps[..i]), t)
  }

  lemma LongerRun(memory: map<nat, nat>, steps: seq<Step>, t: nat)
    requires steps != [] && ClosedDuringTurn(memory, steps[..|steps| - 1], t)
    ensures ClosedDuringTurn(memory, steps, t)
  {
    hide AsyncClient.After;
    var before := steps[..|steps| - 1];
    var i :| 0 <= i < |before| && before[i].CloseClient? && HasTurn(AsyncClient.After(memory, before[..i]), t);
    assert before[..i] == steps[..i];
  }

  lemma {:induction false} CountedClosesHappened(memory: map<nat, nat>, steps: seq<Step>, t: nat)
    requires HasTurn(AsyncClient.After(memory, steps), t) && AsyncClient.After(memory, steps).turns.closesSinceGrant > 0
    ensures ClosedDuringTurn(memory, steps, t)
  {
    hide Inv, AsyncClient.Apply, ClosedDuringTurn;
    var n := |steps| - 1;
    var before := AsyncClient.After(memory, steps[..n]);
    Plc.RunsKeep(memory, steps[..n]);
    ClosesAreCounted(before, steps[n], t);
    if before.turns.closesSinceGrant > 0 {
      CountedClosesHappened(memory, steps[..n], t);
      LongerRun(memory, steps, t);
    } else {
      CloseSeen(memory, steps, n, t);
    }
  }

  lemma CloseSeen(memory: map<nat, nat>, steps: seq<Step>, i: nat, t: nat)
    requires i < |steps| && steps[i].CloseClient? && HasTurn(AsyncClient.After(memory, steps[..i]), t)
    ensures ClosedDuringTurn(memory, steps, t)
  {
    hide AsyncClient.After;
  }

  /** No other event makes a call end so: it is a read by that call, during whose turn the client was closed. */
  lemma NothingElseCrashes(memory: map<nat, nat>, s: State, e: Step, t: nat)
    requires Reached(memory, s) && t in AsyncClient.Apply(s, e).calls
    requires AsyncClient.Apply(s, e).calls[t].stage == Over(Crashed)
    requires t in s.calls ==> s.calls[t].stage != Over(Crashed)
    ensures HasTurn(s, t) && s.turns.closesSinceGrant > 0 && e.ReadChunk? && e.ticket == t
  {
    hide Inv, Reached, AsyncClient.Possible, AsyncClient.Happen, Inconclusive;
    Plc.ReachedKeeps(memory, s);
    if WellFormed(s) && AsyncClient.Possible(s, e) {
      if e.ReadChunk? {
        ReadActs(s, e.ticket, e.size, e.late);
        Reading(s, e.ticket, e.size, e.late);
        MissingMeansClosed(s, e.ticket);
        InExchangeHasTurn(s, e.ticket);
      } else {
        EventActs(s, e);
      }
    }
  }

  lemma InExchangeHasTurn(s: State, t: nat)
    requires Inv(s) && InExchange(s, t)
    ensures HasTurn(s, t)
  {
    OnlyOneInTurn(s, t);
    hide Rest, Runs.Inv;
  }

  /** A call during whose turn nobody closes the client always ends with a typed outcome. */
  lemma {:induction false} WithoutCloseOutcomesAreTyped(memory: map<nat, nat>, steps: seq<Step>, t: nat)
    requires t in AsyncClient.After(memory, steps).calls && !ClosedDuringTurn(memory, steps, t)
    ensures AsyncClient.After(memory, steps).calls[t].stage != Over(Crashed)
  {
    hide Inv, AsyncClient.Apply, ClosedDuringTurn;
    if steps != [] && AsyncClient.After(memory, steps).calls[t].stage == Over(Crashed) {
      var n := |steps| - 1;
      var before := AsyncClient.After(memory, steps[..n]);
      Plc.RunsKeep(memory, steps[..n]);
      if t in before.calls && before.calls[t].stage == Over(Crashed) {
        if ClosedDuringTurn(memory, steps[..n], t) { LongerRun(memory, steps, t); }
        WithoutCloseOutcomesAreTyped(memory, steps[..n], t);
      } else {
        assert Reached(memory, before);
        NothingElseCrashes(memory, before, steps[n], t);
        CountedClosesHappened(memory, steps[..n], t);
        LongerRun(memory, steps, t);
      }
    }
  }
}
