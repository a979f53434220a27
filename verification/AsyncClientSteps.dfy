/** Every event of the client system keeps the invariant. */
module AsyncClientSteps {
  import opened Wrappers
  import opened AsyncAdmission
  import opened AsyncClient
  import opened AsyncClientRuns
  import Runs = AsyncAdmissionRuns

  // ---------------------------------------------------------------- replay

  /** `t` has the same effect in both states. */
  ghost predicate SameEffect(s: State, s': State, t: nat) {
    && (Effective(s, t) <==> Effective(s', t))
    && (Effective(s, t) ==> s.calls[t].op == s'.calls[t].op)
  }

  lemma {:induction false} ReplayFrame(s: State, s': State, granted: seq<nat>)
    requires s.origin == s'.origin
    requires forall i :: 0 <= i < |granted| ==> SameEffect(s, s', granted[i])
    ensures Replay(s, granted) == Replay(s', granted)
  {
    if granted != [] {
      ReplayFrame(s, s', granted[..|granted| - 1]);
    }
  }

  /** The grants stay, or one more ticket without effect is granted. */
  ghost predicate GrantsOneMore(s: State, s': State) {
    || s'.turns.granted == s.turns.granted
    || exists u :: IsNextGrant(s, s', u)
  }

  predicate IsNextGrant(s: State, s': State, u: nat) {
    && s'.turns.granted == s.turns.granted + [u] && !Effective(s', u)
    && (s.turns.granted != [] ==> Runs.Last(s.turns.granted) < u)
  }

  lemma ReplayMore(s: State, s': State)
    requires s.origin == s'.origin && GrantsOneMore(s, s')
    requires forall t: nat :: SameEffect(s, s', t)
    ensures Replay(s', s'.turns.granted) == Replay(s, s.turns.granted)
  {
    ReplayFrame(s, s', s.turns.granted);
    if s'.turns.granted != s.turns.granted {
      var u :| IsNextGrant(s, s', u);
      assert s'.turns.granted[..|s'.turns.granted| - 1] == s.turns.granted;
    }
  }

  /** A request is kept with its ticket; its accepted line, if any, is old, or it is a snapshot. */
  ghost predicate Kept(s: State, s': State, r: nat)
    requires r < |s'.requests|
  {
    var q' := s'.requests[r];
    if r < |s.requests| then
      var q := s.requests[r];
      && q'.ticket == q.ticket && q'.command == q.command
      && (Calm(s') && q'.line.Some? && q'.command.ReadWord? ==>
            (q.line.Some? && q'.status == q.status) || Snapshot(s', q'))
    else q'.line == None && FromGrant(s', q')
  }

  /** What the PLC served stays as it is. */
  ghost predicate ServedStays(s: State, s': State) {
    && |s.requests| <= |s'.requests|
    && forall r :: 0 <= r < |s.requests| && s.requests[r].status.Served? ==>
         s'.requests[r].status == s.requests[r].status && s'.requests[r].command == s.requests[r].command
  }

  lemma CalmBefore(s: State, s': State)
    requires ServedStays(s, s') && (Quiet(s') ==> Quiet(s))
    ensures Calm(s') ==> Calm(s)
  {
    hide Honest, Quiet;
    if Calm(s') {
      forall r | 0 <= r < |s.requests| && s.requests[r].status.Served? ensures Answered(s.requests[r]) {
        assert Answered(s'.requests[r]);
      }
    }
  }

  lemma SerialMore(s: State, s': State)
    requires Serial(s) && s'.origin == s.origin && GrantsOneMore(s, s')
    requires forall t: nat :: SameEffect(s, s', t)
    requires Calm(s') ==> Calm(s)
    requires |s.requests| <= |s'.requests| && forall r: nat :: r < |s'.requests| ==> Kept(s, s', r)
    ensures Serial(s')
  {
    hide SameEffect, Calm, Snapshot;
    forall r: nat | r < |s'.requests|
      ensures FromGrant(s', s'.requests[r])
      ensures Calm(s') && s'.requests[r].line.Some? && s'.requests[r].command.ReadWord? ==>
        Snapshot(s', s'.requests[r])
    {
      assert Kept(s, s', r);
      if r < |s.requests| { KeptSnapshot(s, s', r); }
    }
  }

  lemma KeptSnapshot(s: State, s': State, r: nat)
    requires Serial(s) && s'.origin == s.origin && GrantsOneMore(s, s')
    requires forall t: nat :: SameEffect(s, s', t)
    requires Calm(s') ==> Calm(s)
    requires r < |s.requests| <= |s'.requests| && Kept(s, s', r)
    ensures FromGrant(s', s'.requests[r])
    ensures Calm(s') && s'.requests[r].line.Some? && s'.requests[r].command.ReadWord? ==> Snapshot(s', s'.requests[r])
  {
    hide Calm;
    var granted, t := s.turns.granted, s.requests[r].ticket;
    ReplayFrame(s, s', Before(granted, t));
    if s'.turns.granted != granted {
      var u :| IsNextGrant(s, s', u);
      assert (granted + [u])[..|granted|] == granted;
    }
  }

  // ---------------------------------------------------------------- events of the lock alone

  /** One call that has sent nothing moves on outside an exchange. */
  ghost predicate Moves(s: State, s': State, t: nat, call: Call) {
    && s' == s.(turns := s'.turns, calls := s.calls[t := call])
    && call.write == None && call.got == [] && !Exchanging(call.stage) && !call.stage.Connecting?
    && (call.stage.Over? ==> call.stage.outcome.Failed?)
    && (t !in s.calls ==> !call.stage.Over?)
    && (t in s.calls ==>
          s.calls[t].write == None && s.calls[t].stage.Queued? && s.calls[t].got == [] && call.op == s.calls[t].op)
    && GrantsOneMore(s, s')
  }

  lemma MovesRest(s: State, s': State, t: nat, call: Call, current: Option<nat>)
    requires Rest(s, current) && Moves(s, s', t, call)
    requires s.live == None && current.Some? ==> OwnerInvalidated(s')
    requires OwnerInvalidated(s') ==> OwnerInvalidated(s)
    ensures Rest(s', current)
  {
    MovesRequests(s, s', t, call);
    MovesStreams(s, s', t, call, current);
    MovesOutcomes(s, s', t, call, current);
    MovesResults(s, s', t, call);
    MovesMemory(s, s', t, call, current);
    hide Requests, Inboxes, Logged, Correlated, LiveStream, Transports, Monitors, Results, Stale, Outcomes, Memory;
    hide Moves;
  }

  /** Connections, requests and the accumulator are the same: what is said of them alone still holds. */
  lemma WorldFrame(s: State, s': State, current: Option<nat>)
    requires s' == s.(turns := s'.turns, calls := s'.calls)
    requires Inboxes(s) && Logged(s) && Correlated(s) && LiveStream(s, current) && Monitors(s)
    ensures Inboxes(s') && Logged(s') && Correlated(s') && LiveStream(s', current) && Monitors(s')
  {
    assert LiveStream(s', current);
    assert Monitors(s');
  }

  lemma MovesStreams(s: State, s': State, t: nat, call: Call, current: Option<nat>)
    requires Moves(s, s', t, call) && Inboxes(s) && Logged(s) && Correlated(s)
    requires LiveStream(s, current) && Monitors(s) && Transports(s, current)
    requires s.live == None && current.Some? ==> OwnerInvalidated(s')
    requires OwnerInvalidated(s') ==> OwnerInvalidated(s)
    ensures Inboxes(s') && Logged(s') && Correlated(s')
    ensures LiveStream(s', current) && Monitors(s') && Transports(s', current)
  {
    hide Inboxes, Logged, Correlated, LiveStream, Monitors;
    WorldFrame(s, s', current);
  }

  lemma MovesOutcomes(s: State, s': State, t: nat, call: Call, current: Option<nat>)
    requires Moves(s, s', t, call) && Requests(s) && Stale(s, current) && Outcomes(s)
    ensures Stale(s', current) && Outcomes(s')
  {
  }

  lemma MovesResults(s: State, s': State, t: nat, call: Call)
    requires Results(s) && Moves(s, s', t, call)
    ensures Results(s')
  {
    hide Results, Backed;
    forall u: nat | u in s'.calls ensures SameValues(s, s', u) {
      assert u != t ==> s'.calls[u] == s.calls[u];
    }
    ResultsFrame(s, s');
  }

  lemma MovesRequests(s: State, s': State, t: nat, call: Call)
    requires Requests(s) && Moves(s, s', t, call)
    ensures Requests(s')
  {
  }

  lemma MovesMemory(s: State, s': State, t: nat, call: Call, current: Option<nat>)
    requires Memory(s, current) && Moves(s, s', t, call)
    ensures Memory(s', current)
  {
    forall u: nat ensures SameEffect(s, s', u) {}
    ReplayMore(s, s');
    if Quiet(s') {
      forall u: nat | u in s.calls ensures !Doubtful(s.calls[u]) {
        assert u in s'.calls && (u != t ==> s'.calls[u] == s.calls[u]);
      }
    }
    CalmBefore(s, s');
    hide Serial, Replay;
    SerialMore(s, s');
  }

  /** An arrival: a new ticket, running at once when the lock was free. */
  lemma EnterFacts(turns: System, task: Task)
    requires Runs.Inv(turns) && AsyncAdmission.Possible(turns, Enter(task)) && turns.lock.owner != Some(task)
    requires turns.lock.depth <= 1
    ensures var turns', t := AsyncAdmission.Happen(turns, Enter(task)), turns.lock.nextTicket;
            && (ActiveWasInvalidated(turns'.lock) ==> ActiveWasInvalidated(turns.lock))
            && (turns.granted != [] ==> Runs.Last(turns.granted) < t)
            && Runs.Inv(turns') && turns'.lock.nextTicket == t + 1 && turns'.lock.depth <= 1
            && (if turns'.lock.owner == Some(task) then
                  && turns'.fate == turns.fate[t := Fate.Running] && turns'.granted == turns.granted + [t]
                  && Inside(turns) == None && Inside(turns') == Some(t)
                else
                  && turns'.fate == turns.fate[t := Fate.Waiting] && turns'.granted == turns.granted
                  && Inside(turns') == Inside(turns)
                  && (ActiveWasInvalidated(turns'.lock) <==> ActiveWasInvalidated(turns.lock)))
  {
    Runs.EnterKeeps(turns, task);
  }

  lemma WakeFacts(turns: System, t: nat)
    requires Runs.Inv(turns) && AsyncAdmission.Possible(turns, Resume(t)) && turns.lock.depth <= 1
    ensures var turns' := AsyncAdmission.Happen(turns, Resume(t));
            && Runs.Inv(turns') && turns'.lock == turns.lock && turns'.granted == turns.granted
            && turns'.fate ==
               turns.fate[t := if turns.lock.futures[t] == Granted then Fate.Running else Ended(Ending.Rejected)]
            && (if turns.lock.futures[t] == Granted then Inside(turns) == None && Inside(turns') == Some(t)
                else Inside(turns') == Inside(turns))
  {
    Runs.ResumeKeeps(turns, t);
  }

  lemma CancelFacts(turns: System, t: nat)
    requires Runs.Inv(turns) && AsyncAdmission.Possible(turns, Cancel(t)) && turns.lock.depth <= 1
    ensures var turns' := AsyncAdmission.Happen(turns, Cancel(t));
            && (ActiveWasInvalidated(turns'.lock) ==> ActiveWasInvalidated(turns.lock))
            && Runs.Inv(turns') && turns'.lock.nextTicket == turns.lock.nextTicket && turns'.lock.depth <= 1
            && turns'.fate == turns.fate[t := Ended(Ending.Cancelled)]
            && Inside(turns') == Inside(turns)
            && (Inside(turns).Some? ==>
                  (ActiveWasInvalidated(turns'.lock) <==> ActiveWasInvalidated(turns.lock)))
            && (turns'.granted == turns.granted
                || exists u :: turns'.granted == turns.granted + [u] && u in turns.fate && turns.fate[u] == Fate.Waiting
                               && turns.granted != [] && Runs.Last(turns.granted) < u)
  {
    Runs.CancelKeeps(turns, t);
    var q := turns.lock.queue;
    if Runs.Inv(turns) && InQueue(q, t) {
    } else if turns.lock.owner == Some(turns.holder[t]) {
      Runs.CancelGranted(turns, t);
      if q != [] {
        assert AsyncAdmission.Happen(turns, Cancel(t)).granted == turns.granted + [q[0].ticket];
      }
    }
  }

  lemma CloseFacts(turns: System)
    requires Runs.Inv(turns) && turns.lock.depth <= 1
    ensures var turns' := AsyncAdmission.Happen(turns, Close);
            && Runs.Inv(turns') && turns'.lock.nextTicket == turns.lock.nextTicket && turns'.lock.depth <= 1
            && turns'.fate == turns.fate && turns'.granted == turns.granted && Inside(turns') == Inside(turns)
            && (Inside(turns).Some? ==> ActiveWasInvalidated(turns'.lock))
  {
    Runs.CloseKeeps(turns);
  }

  lemma CallKeeps(s: State, task: Task, op: Op)
    requires Inv(s) && WellFormed(s) && AsyncClient.Possible(s, CallOp(task, op))
    ensures Inv(AsyncClient.Happen(s, CallOp(task, op)))
  {
    hide Turns, Rest, AsyncClient.Happen, AsyncClient.Possible, Current;
    var s', t := AsyncClient.Happen(s, CallOp(task, op)), s.turns.lock.nextTicket;
    CallTurns(s, task, op);
    FreshTicket(s, t);
    assert s'.turns.granted != s.turns.granted ==> IsNextGrant(s, s', t);
    InvTransports(s);
    MovesRest(s, s', t, s'.calls[t], Current(s));
  }

  lemma CallTurns(s: State, task: Task, op: Op)
    requires Turns(s) && WellFormed(s) && AsyncClient.Possible(s, CallOp(task, op))
    ensures var s', t := AsyncClient.Happen(s, CallOp(task, op)), s.turns.lock.nextTicket;
            && Turns(s') && Current(s') == Current(s)
            && (Current(s).Some? ==> (OwnerInvalidated(s') <==> OwnerInvalidated(s)))
            && (OwnerInvalidated(s') ==> OwnerInvalidated(s))
            && (s'.turns.granted == s.turns.granted || s'.turns.granted == s.turns.granted + [t])
            && (s.turns.granted != [] ==> Runs.Last(s.turns.granted) < t)
            && s' == s.(turns := s'.turns, calls := s.calls[t := s'.calls[t]])
            && s'.calls[t].write == None && s'.calls[t].got == []
            && (s'.calls[t].stage.Queued? || s'.calls[t].stage.Ready?)
  {
    hide Runs.Inv, AsyncAdmission.Happen, AsyncAdmission.Possible;
    EnterFacts(s.turns, task);
    EnteredTurns(s, AsyncClient.Happen(s, CallOp(task, op)), s.turns.lock.nextTicket);
    hide Turns, Inside;
  }

  /** A new ticket, inside the lock or waiting for it. */
  lemma EnteredTurns(s: State, s': State, t: nat)
    requires Turns(s) && t == s.turns.lock.nextTicket && Runs.Inv(s'.turns)
    requires s'.turns.lock.nextTicket == t + 1 && s'.turns.lock.depth <= 1
    requires t in s'.calls && s'.calls == s.calls[t := s'.calls[t]]
    requires || (s'.calls[t].stage.Ready? && s'.turns.fate == s.turns.fate[t := Fate.Running]
                 && Inside(s.turns) == None && Inside(s'.turns) == Some(t))
             || (s'.calls[t].stage.Queued? && s'.turns.fate == s.turns.fate[t := Fate.Waiting]
                 && Inside(s'.turns) == Inside(s.turns))
    ensures Turns(s') && Current(s') == Current(s)
  {
    hide Runs.Inv, Inside;
    if Inside(s.turns).Some? { InsideIsOld(s); }
  }

  lemma InsideIsOld(s: State)
    requires Turns(s) && Inside(s.turns).Some?
    ensures Inside(s.turns).value < s.turns.lock.nextTicket
  {
    hide Runs.Queued, Runs.Ordered, Runs.Owned, Runs.Placed, Runs.Told;
  }

  lemma FreshTicket(s: State, t: nat)
    requires Turns(s) && t == s.turns.lock.nextTicket
    ensures t !in s.calls
  {
  }

  lemma FateOfCall(s: State, t: nat)
    requires Turns(s) && t in s.turns.fate
    ensures t in s.calls && (s.turns.fate[t] == Fate.Waiting ==> s.calls[t].stage.Queued?)
  {
  }

  lemma InvTransports(s: State)
    requires Inv(s)
    ensures s.live == None && Current(s).Some? ==> OwnerInvalidated(s)
  {
  }

  lemma WakeTurns(s: State, t: nat)
    requires Turns(s) && WellFormed(s) && AsyncClient.Possible(s, Wake(t))
    ensures var s' := AsyncClient.Happen(s, Wake(t));
            && Turns(s') && Current(s') == Current(s) && t in s.calls && s.calls[t].stage.Queued?
            && s'.turns.granted == s.turns.granted && s'.turns.lock == s.turns.lock
            && s' == s.(turns := s'.turns, calls := s.calls[t := s'.calls[t]])
            && (s'.calls[t].stage == Ready || s'.calls[t].stage == Over(Failed(Reason.Closed)))
            && s'.calls[t] == s.calls[t].(stage := s'.calls[t].stage)
  {
    hide Runs.Inv, AsyncAdmission.Happen;
    WakeFacts(s.turns, t);
  }

  lemma WakeKeeps(s: State, t: nat)
    requires Inv(s) && WellFormed(s) && AsyncClient.Possible(s, Wake(t))
    ensures Inv(AsyncClient.Happen(s, Wake(t)))
  {
    hide Turns, Rest, AsyncClient.Happen, AsyncClient.Possible, Current;
    var s' := AsyncClient.Happen(s, Wake(t));
    WakeTurns(s, t);
    InvTransports(s);
    QueuedHasSentNothing(s, t);
    MovesRest(s, s', t, s'.calls[t], Current(s));
  }

  lemma QueuedHasSentNothing(s: State, t: nat)
    requires Inv(s) && t in s.calls && s.calls[t].stage.Queued?
    ensures s.calls[t].write == None && s.calls[t].got == []
  {
  }

  lemma CancelTurns(s: State, t: nat)
    requires Turns(s) && WellFormed(s) && AsyncClient.Possible(s, CancelWait(t))
    ensures var s' := AsyncClient.Happen(s, CancelWait(t));
            && Turns(s') && Current(s') == Current(s) && t in s.calls && s.calls[t].stage.Queued?
            && s' == s.(turns := s'.turns, calls := s.calls[t := s.calls[t].(stage := Over(Failed(Reason.Cancelled)))])
            && (Current(s).Some? ==> (OwnerInvalidated(s') <==> OwnerInvalidated(s)))
            && (OwnerInvalidated(s') ==> OwnerInvalidated(s))
            && (s'.turns.granted == s.turns.granted
                || exists u ::
                  s'.turns.granted == s.turns.granted + [u] && u in s.turns.fate && s.turns.fate[u] == Fate.Waiting
                               && s.turns.granted != [] && Runs.Last(s.turns.granted) < u)
  {
    hide Runs.Inv, AsyncAdmission.Happen;
    CancelFacts(s.turns, t);
  }

  lemma CancelKeeps(s: State, t: nat)
    requires Inv(s) && WellFormed(s) && AsyncClient.Possible(s, CancelWait(t))
    ensures Inv(AsyncClient.Happen(s, CancelWait(t)))
  {
    hide Turns, Rest, AsyncClient.Happen, AsyncClient.Possible, Current;
    var s' := AsyncClient.Happen(s, CancelWait(t));
    CancelTurns(s, t);
    InvTransports(s);
    QueuedHasSentNothing(s, t);
    if s'.turns.granted != s.turns.granted {
      var u :| s'.turns.granted == s.turns.granted + [u] && u in s.turns.fate && s.turns.fate[u] == Fate.Waiting
        && s.turns.granted != [] && Runs.Last(s.turns.granted) < u;
      FateOfCall(s, u);
      QueuedHasSentNothing(s, u);
      assert IsNextGrant(s, s', u);
    }
    MovesRest(s, s', t, s'.calls[t], Current(s));
  }

  lemma CloseKeeps(s: State)
    requires Inv(s) && WellFormed(s) && AsyncClient.Possible(s, CloseClient)
    ensures Inv(AsyncClient.Happen(s, CloseClient))
  {
    hide Runs.Inv, Rest;
    var s' := AsyncClient.Happen(s, CloseClient);
    CloseFacts(s.turns);
    assert Turns(s') && Current(s') == Current(s);
    CloseRest(s, s', Current(s));
  }

  /** Calls, requests and grants are the same: the memory invariant still holds. */
  lemma MemoryFrame(s: State, s': State, current: Option<nat>)
    requires Memory(s, current)
    requires s'.calls == s.calls && s'.requests == s.requests && s'.memory == s.memory && s'.origin == s.origin
    requires s'.turns.granted == s.turns.granted
    ensures Memory(s', current)
  {
    forall u: nat ensures SameEffect(s, s', u) {}
    ReplayMore(s, s');
    CalmBefore(s, s');
    hide Serial, Replay;
    SerialMore(s, s');
  }

  /** Requests are only added, and accepted lines stay. */
  ghost predicate RequestsGrow(s: State, s': State) {
    && |s.requests| <= |s'.requests|
    && forall r :: 0 <= r < |s.requests| ==>
         && s'.requests[r].ticket == s.requests[r].ticket && s'.requests[r].command == s.requests[r].command
         && (s.requests[r].line.Some? ==> s'.requests[r].line == s.requests[r].line)
  }

  lemma BackedFrame(s: State, s': State, t: nat, op: Op, values: seq<nat>)
    requires Backed(s, t, op, values) && RequestsGrow(s, s')
    ensures Backed(s', t, op, values)
  {
    hide Judge, Next;
    forall i | 0 <= i < |values| ensures Obtained(s', t, Next(op, values[..i]), values[i]) {
      assert Obtained(s, t, Next(op, values[..i]), values[i]);
      var r :| 0 <= r < |s.requests| && Yields(s.requests[r], t, Next(op, values[..i]), values[i]);
      assert Yields(s'.requests[r], t, Next(op, values[..i]), values[i]);
    }
  }

  /** A call has the operation and the values it had, or is new and has none. */
  ghost predicate SameValues(s: State, s': State, t: nat)
    requires t in s'.calls
  {
    if t in s.calls then
      && s'.calls[t].op == s.calls[t].op && Values(s'.calls[t]) == Values(s.calls[t])
      && (s'.calls[t].stage.Over? && s'.calls[t].stage.outcome.Success? ==> s'.calls[t].stage == s.calls[t].stage)
    else Values(s'.calls[t]) == [] && !s'.calls[t].stage.Over?
  }

  lemma ResultsFrame(s: State, s': State)
    requires Results(s) && RequestsGrow(s, s') && forall t: nat :: t in s'.calls ==> SameValues(s, s', t)
    ensures Results(s')
  {
    hide RequestsGrow, Next, Backed;
    forall t: nat | t in s'.calls
      ensures Backed(s', t, s'.calls[t].op, Values(s'.calls[t]))
      ensures s'.calls[t].stage.Over? ==> Returned(s', t, s'.calls[t].stage.outcome)
    {
      assert SameValues(s, s', t);
      if t in s.calls {
        BackedFrame(s, s', t, s.calls[t].op, Values(s.calls[t]));
      } else {
        NothingBacked(s', t, s'.calls[t].op);
      }
    }
  }

  lemma NothingBacked(s: State, t: nat, op: Op)
    ensures Backed(s, t, op, [])
  {
  }

  lemma BooksFrame(s: State, s': State, current: Option<nat>)
    requires Books(s, current) && s'.calls == s.calls && s'.requests == s.requests && s'.log == s.log
    requires |s'.conns| == |s.conns| && forall c :: 0 <= c < |s.conns| ==> s'.conns[c].inbox == s.conns[c].inbox
    ensures Books(s', current)
  {
    hide Requests, Inboxes, Logged, Correlated, Results, Outcomes, Stale;
    RequestsFrame(s, s');
    InboxesFrame(s, s');
    OutcomesFrame(s, s', current);
    hide Values;
    ResultsFrame(s, s');
  }

  lemma RequestsFrame(s: State, s': State)
    requires Requests(s) && s'.calls == s.calls && s'.requests == s.requests && |s'.conns| == |s.conns|
    ensures Requests(s')
  {
    hide Next;
  }

  lemma InboxesFrame(s: State, s': State)
    requires Inboxes(s) && s'.requests == s.requests
    requires |s'.conns| == |s.conns| && forall c :: 0 <= c < |s.conns| ==> s'.conns[c].inbox == s.conns[c].inbox
    ensures Inboxes(s')
  {
  }

  lemma OutcomesFrame(s: State, s': State, current: Option<nat>)
    requires Logged(s) && Correlated(s) && Outcomes(s) && Stale(s, current)
    requires s'.calls == s.calls && s'.requests == s.requests && s'.log == s.log
    ensures Logged(s') && Correlated(s') && Outcomes(s') && Stale(s', current)
  {
    hide Answered;
  }

  lemma CloseRest(s: State, s': State, current: Option<nat>)
    requires Rest(s, current) && s' == Retire(s.(turns := s'.turns)) && s'.turns.granted == s.turns.granted
    requires current.Some? ==> OwnerInvalidated(s')
    ensures Rest(s', current)
  {
    MemoryFrame(s, s', current);
    BooksFrame(s, s', current);
    hide Books, Memory;
    NoLiveMonitors(s.requests);
    assert LiveStream(s', current) && Transports(s', current) && Monitors(s');
  }

  /** Without a connection nothing is registered. */
  lemma {:induction false} NoLiveMonitors(requests: seq<Request>)
    ensures LastBits(requests, None) == 0 && LastWords(requests, None) == []
  {
    hide Confirmed;
    if requests != [] { NoLiveMonitors(requests[..|requests| - 1]); }
  }

  lemma {:induction false} SameLinesSameMonitors(requests: seq<Request>, others: seq<Request>, live: Option<nat>)
    requires |others| == |requests|
    requires forall r :: 0 <= r < |requests| ==>
      && others[r].command == requests[r].command && others[r].conn == requests[r].conn
      && others[r].line == requests[r].line
    ensures LastBits(others, live) == LastBits(requests, live) && LastWords(others, live) == LastWords(requests, live)
  {
    hide Judge;
    if requests != [] { SameLinesSameMonitors(requests[..|requests| - 1], others[..|requests| - 1], live); }
  }

  // ---------------------------------------------------------------- the end of a call

  /** The call `t` is in its turn; `current` is its request if it is in an exchange. */
  ghost predicate Acting(s: State, t: nat, current: Option<nat>) {
    && t in s.calls && InTurn(s.calls[t].stage) && t in s.turns.holder
    && Turns(s) && Books(s, current)
    && (current.Some? ==> current.value < |s.requests| && s.requests[current.value].ticket == t)
  }

  /** A state-changing request the PLC has not served. */
  predicate IsPending(q: Request) { q.status == Sent && StateChanging(q.command) }

  /** The exchange under way, if any, is over, and `outcome` tells the truth about it. */
  ghost predicate Settled(s: State, t: nat, current: Option<nat>, outcome: Outcome) {
    && Acting(s, t, current) && LiveStream(s, None) && Memory(s, None) && Monitors(s)
    && Truthful(s, s.calls[t], outcome) && Returned(s, t, outcome)
    && (current.Some? && IsPending(s.requests[current.value]) ==>
          outcome.OutcomeUnknown? || outcome.Crashed?)
  }

  lemma FinishKeeps(s: State, t: nat, current: Option<nat>, outcome: Outcome)
    requires Settled(s, t, current, outcome)
    ensures Inv(Finish(s, t, outcome))
  {
    FinishTurns(s, t, outcome);
    FinishRequests(s, t, outcome, current);
    FinishOutcomes(s, t, outcome, current);
    FinishStreams(s, t, outcome, current);
    FinishTransports(s, t, outcome);
    FinishResults(s, t, outcome);
    FinishMemory(s, t, outcome, current);
    hide Turns, Requests, Inboxes, Logged, Correlated, LiveStream, Transports, Monitors, Results, Stale, Outcomes;
    hide Memory, Settled;
  }

  lemma FinishRequests(s: State, t: nat, outcome: Outcome, current: Option<nat>)
    requires t in s.calls && t in s.turns.holder && Books(s, current)
    ensures Requests(Finish(s, t, outcome))
  {
    hide Outcomes, Logged, Stale, Correlated, Inboxes, Results, Next, StateChanging, AsyncAdmission.Apply;
  }

  lemma FinishResults(s: State, t: nat, outcome: Outcome)
    requires Results(s) && t in s.calls && t in s.turns.holder && !s.calls[t].stage.Over? && Returned(s, t, outcome)
    ensures Results(Finish(s, t, outcome))
  {
    hide Next, Backed, AsyncAdmission.Apply;
    var s' := Finish(s, t, outcome);
    forall u: nat | u in s'.calls
      ensures Backed(s', u, s'.calls[u].op, Values(s'.calls[u]))
      ensures s'.calls[u].stage.Over? ==> Returned(s', u, s'.calls[u].stage.outcome)
    {
      BackedFrame(s, s', u, s.calls[u].op, Values(s.calls[u]));
      if u == t && outcome.Success? {
        BackedFrame(s, s', t, s.calls[t].op, outcome.values);
      }
    }
  }

  lemma FinishStreams(s: State, t: nat, outcome: Outcome, current: Option<nat>)
    requires t in s.calls && t in s.turns.holder && Books(s, current) && LiveStream(s, None) && Monitors(s)
    ensures var s' := Finish(s, t, outcome);
            Inboxes(s') && Logged(s') && Correlated(s') && LiveStream(s', None) && Monitors(s')
  {
    hide Requests, Outcomes, Stale, Inboxes, Logged, Correlated, LiveStream, Monitors, AsyncAdmission.Apply;
    WorldFrame(s, Finish(s, t, outcome), None);
  }

  lemma FinishTransports(s: State, t: nat, outcome: Outcome)
    requires Turns(s) && t in s.calls && InTurn(s.calls[t].stage) && t in s.turns.holder
    ensures Transports(Finish(s, t, outcome), None)
  {
    hide Runs.Inv, AsyncAdmission.Apply;
    FinishTurns(s, t, outcome);
    OnlyOneInTurn(s, t);
    hide Turns;
  }

  lemma FinishOutcomes(s: State, t: nat, outcome: Outcome, current: Option<nat>)
    requires Settled(s, t, current, outcome)
    ensures Stale(Finish(s, t, outcome), None) && Outcomes(Finish(s, t, outcome))
  {
    hide Memory, Turns, LiveStream, Monitors, Logged, Inboxes, Correlated, AsyncAdmission.Apply;
  }

  lemma FinishMemory(s: State, t: nat, outcome: Outcome, current: Option<nat>)
    requires Settled(s, t, current, outcome)
    ensures Memory(Finish(s, t, outcome), None)
  {
    hide Turns, Books, LiveStream, Monitors, Truthful, Returned, Memory, AsyncAdmission.Apply;
    FinishGrants(s, t, outcome, current);
    hide GrantsOneMore;
    OverMemory(s, Finish(s, t, outcome), t, outcome);
  }

  lemma FinishGrants(s: State, t: nat, outcome: Outcome, current: Option<nat>)
    requires Turns(s) && Books(s, current) && t in s.calls && InTurn(s.calls[t].stage) && t in s.turns.holder
    ensures GrantsOneMore(s, Finish(s, t, outcome))
  {
    hide Turns, Inboxes, Logged, Correlated, Results, Outcomes, Stale, AsyncAdmission.Apply;
    var s' := Finish(s, t, outcome);
    FinishTurns(s, t, outcome);
    if s'.turns.granted != s.turns.granted {
      var u :| s'.turns.granted == s.turns.granted + [u] && u in s.calls && s.calls[u].stage.Queued?
        && s.turns.granted != [] && Runs.Last(s.turns.granted) < u;
      assert s'.calls[u].write == None;
      assert IsNextGrant(s, s', u);
    }
  }

  lemma OverMemory(s: State, s': State, t: nat, outcome: Outcome)
    requires Memory(s, None) && t in s.calls && !s.calls[t].stage.Over? && GrantsOneMore(s, s')
    requires s' == s.(turns := s'.turns, calls := s.calls[t := s.calls[t].(stage := Over(outcome))])
    ensures Memory(s', None)
  {
    forall u: nat ensures SameEffect(s, s', u) {}
    ReplayMore(s, s');
    if Quiet(s') {
      forall u: nat | u in s.calls ensures !Doubtful(s.calls[u]) { assert u in s'.calls; }
    }
    CalmBefore(s, s');
    hide Serial, Replay;
    SerialMore(s, s');
  }

  lemma ActingFrom(s: State, t: nat)
    requires Inv(s) && t in s.calls && InTurn(s.calls[t].stage)
    ensures Acting(s, t, Current(s))
    ensures Current(s) == if Exchanging(s.calls[t].stage) then Some(s.calls[t].stage.req) else None
  {
    OnlyOneInTurn(s, t);
    hide Runs.Inv, LiveStream, Transports, Memory, Outcomes, Monitors, Stale;
  }

  lemma RetiredStream(s: State)
    requires WellFormed(s)
    ensures LiveStream(Retire(s), None) && Monitors(Retire(s))
  {
    NoLiveMonitors(s.requests);
  }

  lemma RetireActing(s: State, t: nat, current: Option<nat>)
    requires Acting(s, t, current) && WellFormed(s) && Memory(s, None)
    ensures Acting(Retire(s), t, current) && LiveStream(Retire(s), None) && Memory(Retire(s), None)
    ensures Monitors(Retire(s))
  {
    hide Memory, Runs.Inv, Books;
    var s' := Retire(s);
    MemoryFrame(s, s', None);
    BooksFrame(s, s', current);
    RetiredStream(s);
    assert Turns(s');
  }

  lemma RaiseKeeps(s: State, t: nat, current: Option<nat>, reason: Reason, maySent: bool)
    requires Acting(s, t, current) && WellFormed(s) && Memory(s, None)
    requires maySent <==> s.calls[t].write.Some?
    requires current.Some? && StateChanging(s.requests[current.value].command) ==> maySent
    ensures Inv(Raise(s, t, reason, maySent))
  {
    hide Turns, Books, Monitors, LiveStream, Memory, Inv;
    RetireActing(s, t, current);
    FinishKeeps(Retire(s), t, current, if maySent then OutcomeUnknown(reason) else Failed(reason));
  }
}
