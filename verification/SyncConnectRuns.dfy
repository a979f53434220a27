/** Over every interleaving no socket is leaked, and a close leaves no socket of an earlier generation behind. */
module SyncConnectRuns {
  import opened Wrappers
  import opened SyncConnect
  import Sync = SyncAdmission
  import Runs = SyncAdmissionRuns

  // ---------------------------------------------------------------- who will close a socket

  /** The worker, the hand-over slot or the connecting thread of the attempt holds the socket. */
  predicate Keeps(a: Attempt, x: Socket) { a.candidate == Some(x) || a.slot == Some(x) || a.connected == Some(x) }

  predicate Taken(c: Closer, x: Socket) { c.phase.Took? && (c.phase.first == Some(x) || c.phase.second == Some(x)) }

  predicate Held(s: State, x: Socket) {
    || s.sock == Some(x)
    || (exists k :: 0 <= k < |s.attempts| && Keeps(s.attempts[k], x))
    || (exists c :: 0 <= c < |s.closers| && Taken(s.closers[c], x))
  }

  ghost predicate NothingLost(s: State) { forall x: Socket :: x < s.created ==> x in s.shut || Held(s, x) }

  /** What each attempt still holds will be closed or handed on by the thread it belongs to. */
  predicate Sane(a: Attempt) {
    && (a.candidate.Some? ==> a.worker == Made || a.worker == Cleaning)
    && (a.worker == Made ==> a.candidate.Some?)
    && (a.worker == Resolving || a.worker == Resolved || a.worker == Made ==> !a.done)
    && (a.slot.Some? ==> a.caller == Waiting && a.done)
    && (a.caller == Waiting ==> !a.abandoned && a.connected == None)
    && (a.connected.Some? <==> a.caller != Waiting && a.caller != Over)
    && (a.caller != Waiting && a.caller != Over ==> a.worker == Cleaning || a.worker == Finished)
    && (a.caller == Over && !a.abandoned ==> a.worker == Cleaning || a.worker == Finished)
  }

  ghost predicate AllSane(s: State) { forall k :: 0 <= k < |s.attempts| ==> Sane(s.attempts[k]) }

  /** One attempt at a time, made by the thread inside the lock, while the client holds no socket. */
  ghost predicate OneAttempt(s: State) {
    && Runs.Inv(s.turns)
    && (forall k :: 0 <= k < |s.attempts| && Active(s.attempts[k]) ==>
          Inside(s, s.attempts[k].thread) && s.sock == None)
    && (forall j, k ::
          0 <= j < |s.attempts| && 0 <= k < |s.attempts| && Active(s.attempts[j]) && Active(s.attempts[k]) ==> j == k)
  }

  /** After a close took the sockets, only a socket of its generation or a later one may be held. */
  ghost predicate Current(s: State) {
    && s.adopted <= s.turns.lock.generation
    && forall c :: 0 <= c < |s.closers| ==>
         && s.closers[c].generation <= s.turns.lock.generation
         && (s.closers[c].phase != Retired && s.sock.Some? ==> s.adopted >= s.closers[c].generation)
  }

  ghost predicate Inv(s: State) { NothingLost(s) && AllSane(s) && OneAttempt(s) && Current(s) }

  // ---------------------------------------------------------------- each event keeps the invariant

  /** One attempt changes; what it held it still holds, or the socket is closed or adopted. */
  lemma AttemptKeeps(s: State, s': State, k: nat)
    requires NothingLost(s) && k < |s.attempts| && |s'.attempts| == |s.attempts|
    requires forall j :: 0 <= j < |s.attempts| && j != k ==> s'.attempts[j] == s.attempts[j]
    requires s'.closers == s.closers && s.shut <= s'.shut
    requires s.created <= s'.created <= s.created + 1
    requires s'.created > s.created ==> Keeps(s'.attempts[k], s.created)
    requires s'.sock == s.sock || s.sock == None
    requires forall x :: Keeps(s.attempts[k], x) ==> Keeps(s'.attempts[k], x) || x in s'.shut || s'.sock == Some(x)
    ensures NothingLost(s')
  {
    hide Keeps;
    forall x: Socket | x < s'.created ensures x in s'.shut || Held(s', x) {
      if x == s.created {
        assert Keeps(s'.attempts[k], x);
      } else if x !in s'.shut {
        assert Held(s, x);
        if j :| 0 <= j < |s.attempts| && Keeps(s.attempts[j], x) {
          if j != k { assert Keeps(s'.attempts[j], x); }
        }
      }
    }
  }

  lemma WorkerKeeps(s: State, e: Event)
    requires Inv(s) && Possible(s, e)
    requires e.WorkerResolves? || e.WorkerCreates? || e.WorkerPublishes? || e.WorkerFails? || e.WorkerCleans?
    ensures NothingLost(Happen(s, e)) && AllSane(Happen(s, e))
  {
    hide OneAttempt, Current, NothingLost;
    AttemptKeeps(s, Happen(s, e), e.k);
  }

  lemma WaiterKeeps(s: State, e: Event)
    requires Inv(s) && Possible(s, e) && (e.CallerPolls? || e.CallerTakes?)
    ensures NothingLost(Happen(s, e)) && AllSane(Happen(s, e))
  {
    hide OneAttempt, Current, NothingLost, Outdated;
    AttemptKeeps(s, Happen(s, e), e.k);
  }

  lemma CallerKeeps(s: State, e: Event)
    requires Inv(s) && Possible(s, e)
    requires || e.CallerRegisters? || e.CallerReady? || e.CallerFails?
             || e.CallerAdopts? || e.CallerUnlists? || e.CallerCloses?
    ensures NothingLost(Happen(s, e)) && AllSane(Happen(s, e))
  {
    hide OneAttempt, Current, NothingLost, Outdated;
    NoSockWhileActive(s, e.k);
    AttemptKeeps(s, Happen(s, e), e.k);
  }

  lemma NoSockWhileActive(s: State, k: nat)
    requires OneAttempt(s) && k < |s.attempts| && Active(s.attempts[k])
    ensures s.sock == None
  {
  }

  lemma ConnectKeeps(s: State, e: Event)
    requires Inv(s) && Possible(s, e) && e.Connect?
    ensures NothingLost(Happen(s, e)) && AllSane(Happen(s, e))
  {
    hide OneAttempt, Current;
    var s' := Happen(s, e);
    var n := |s.attempts|;
    assert forall j :: 0 <= j < n ==> s'.attempts[j] == s.attempts[j];
    forall x: Socket | x < s'.created ensures x in s'.shut || Held(s', x) {
      if x == s.created {
        assert Keeps(s'.attempts[n], x);
      } else {
        assert x in s.shut || Held(s, x);
        if j :| 0 <= j < n && Keeps(s.attempts[j], x) { assert Keeps(s'.attempts[j], x); }
      }
    }
  }

  lemma CloserKeeps(s: State, e: Event)
    requires NothingLost(s) && Possible(s, e)
    requires (e.CloseBegins? || e.CleanupBegins? || e.CloserTakes? || e.CloserCloses?)
    ensures NothingLost(Happen(s, e))
  {
    hide Keeps, Sync.Apply;
    var s' := Happen(s, e);
    forall x: Socket | x < s'.created ensures x in s'.shut || Held(s', x) {
      assert x in s.shut || Held(s, x);
      if x !in s'.shut && s.sock == Some(x) && e.CloserTakes? {
        assert Taken(s'.closers[e.c], x);
      } else if x !in s'.shut {
        if c :| 0 <= c < |s.closers| && Taken(s.closers[c], x) {
          assert s'.closers[c] == s.closers[c] && Taken(s'.closers[c], x);
        }
      }
    }
  }

  /** A step of the turn lock by a thread that is not connecting leaves connecting threads inside. */
  lemma TurnKeeps(s: State, event: Sync.Event)
    requires Inv(s) && Possible(s, Turn(event))
    ensures Inv(Happen(s, Turn(event)))
  {
    hide NothingLost, AllSane, Runs.Inv;
    Runs.ApplyKeeps(s.turns, event);
    var s' := Happen(s, Turn(event));
    TurnFrame(s.turns, event);
    assert NothingLost(s') by { SameHoldings(s, s'); }
    assert AllSane(s') by { SameSanity(s, s'); }
  }

  lemma TurnFrame(t: Sync.System, event: Sync.Event)
    requires Sync.Possible(t, event) && !event.Close?
    ensures var t' := Sync.Happen(t, event);
            && t'.lock.generation == t.lock.generation
            && forall thread: Thread :: thread != event.thread ==>
                Sync.Depth(t'.lock, thread) == Sync.Depth(t.lock, thread)
  {
    hide Sync.Arrive, Sync.Leave, Sync.Begin;
    match event
    case Enter(thread) => ArriveFrame(t.lock, thread);
    case Exit(thread) => LeaveFrame(t.lock, thread);
    case Wake(thread) => BeginFrame(t.lock, thread, t.waiters[t.blocked[thread]].generation);
  }

  lemma ArriveFrame(l: Sync.Lock, thread: Thread)
    ensures Sync.Arrive(l, thread).generation == l.generation && Sync.Arrive(l, thread).depth == l.depth
  {
  }

  lemma LeaveFrame(l: Sync.Lock, thread: Thread)
    ensures Sync.Leave(l, thread).generation == l.generation
    ensures forall u: Thread :: u != thread ==> Sync.Depth(Sync.Leave(l, thread), u) == Sync.Depth(l, u)
  {
  }

  lemma BeginFrame(l: Sync.Lock, thread: Thread, generation: nat)
    ensures Sync.Begin(l, thread, generation).generation == l.generation
    ensures forall u: Thread :: u != thread ==> Sync.Depth(Sync.Begin(l, thread, generation), u) == Sync.Depth(l, u)
  {
  }

  lemma SameHoldings(s: State, s': State)
    requires NothingLost(s) && s' == s.(turns := s'.turns)
    ensures NothingLost(s')
  {
    hide Keeps, Taken;
    forall x: Socket | x < s'.created && x !in s'.shut ensures Held(s', x) { assert Held(s, x); }
  }

  lemma SameSanity(s: State, s': State)
    requires AllSane(s) && s'.attempts == s.attempts
    ensures AllSane(s')
  {
  }

  /** Only the thread inside the lock connects, so a new attempt is the only one. */
  lemma ConnectIsAlone(s: State, e: Event)
    requires OneAttempt(s) && Possible(s, e) && e.Connect?
    ensures OneAttempt(Happen(s, e))
  {
    OneInside(s.turns);
    hide Runs.Inv, Sync.Depth;
    var s', n := Happen(s, e), |s.attempts|;
    assert forall j :: 0 <= j < n ==> s'.attempts[j] == s.attempts[j];
    forall j | 0 <= j < n ensures !Active(s.attempts[j]) {}
  }

  lemma OneInside(t: Sync.System)
    requires Runs.Inv(t)
    ensures forall a: Thread, b: Thread :: Sync.Depth(t.lock, a) > 0 && Sync.Depth(t.lock, b) > 0 ==> a == b
  {
  }

  /** Attempts only become inactive, and a socket is only adopted as the last act of one. */
  lemma StepStaysAlone(s: State, e: Event)
    requires OneAttempt(s) && Possible(s, e) && !e.Connect? && !e.Turn? && !e.CloseBegins?
    ensures OneAttempt(Happen(s, e))
  {
    hide OneAttempt;
    var s' := Happen(s, e);
    assert NoNewActivity(s, s') by { StepAddsNoActivity(s, e); }
    FewerStayAlone(s, s');
  }

  /** The same attempts, none newly active, and a socket adopted only when none is active any more. */
  ghost predicate NoNewActivity(s: State, s': State) {
    && s'.turns == s.turns && |s'.attempts| == |s.attempts|
    && (forall k :: 0 <= k < |s.attempts| && Active(s'.attempts[k]) ==>
          Active(s.attempts[k]) && s'.attempts[k].thread == s.attempts[k].thread)
    && (s'.sock == s.sock || s'.sock == None
        || exists k :: 0 <= k < |s.attempts| && Active(s.attempts[k]) && !Active(s'.attempts[k]))
  }

  lemma StepAddsNoActivity(s: State, e: Event)
    requires Possible(s, e) && !e.Connect? && !e.Turn? && !e.CloseBegins?
    ensures NoNewActivity(s, Happen(s, e))
  {
    hide Outdated;
    if e.CallerAdopts? { assert Active(s.attempts[e.k]); }
  }

  lemma FewerStayAlone(s: State, s': State)
    requires OneAttempt(s) && NoNewActivity(s, s')
    ensures OneAttempt(s')
  {
    hide Runs.Inv, Sync.Depth;
  }

  lemma CloseStaysAlone(s: State)
    requires OneAttempt(s)
    ensures OneAttempt(Happen(s, CloseBegins))
    ensures Happen(s, CloseBegins).turns.lock.generation == s.turns.lock.generation + 1
  {
    Runs.ApplyKeeps(s.turns, Sync.Close);
    hide Runs.Inv;
  }

  lemma StepStaysCurrent(s: State, e: Event)
    requires Current(s) && OneAttempt(s) && Possible(s, e) && !e.Turn?
    ensures Current(Happen(s, e))
  {
    hide Runs.Inv, Sync.Depth, OneAttempt, Outdated;
    if e.CloseBegins? { CloseStaysAlone(s); }
    var s' := Happen(s, e);
    assert e.Connect? || e.CloseBegins? || s'.turns == s.turns;
  }

  lemma StepKeeps(s: State, e: Event)
    requires Inv(s)
    ensures Inv(Apply(s, e))
  {
    hide NothingLost, AllSane, OneAttempt, Current, Happen, Possible;
    if Possible(s, e) {
      match e
      case Turn(event) => TurnKeeps(s, event);
      case Connect(_, _) =>
        ConnectKeeps(s, e);
        ConnectIsAlone(s, e);
        StepStaysCurrent(s, e);
      case CloseBegins =>
        CloserKeeps(s, e);
        SameAttempts(s, e);
        CloseStaysAlone(s);
        StepStaysCurrent(s, e);
      case _ =>
        if e.CleanupBegins? || e.CloserTakes? || e.CloserCloses? {
          CloserKeeps(s, e);
          SameAttempts(s, e);
        } else if e.WorkerResolves? || e.WorkerCreates? || e.WorkerPublishes? || e.WorkerFails? || e.WorkerCleans? {
          WorkerKeeps(s, e);
        } else if e.CallerPolls? || e.CallerTakes? {
          WaiterKeeps(s, e);
        } else {
          CallerKeeps(s, e);
        }
        StepStaysAlone(s, e);
        StepStaysCurrent(s, e);
    }
  }

  lemma SameAttempts(s: State, e: Event)
    requires AllSane(s) && Possible(s, e) && (e.CloseBegins? || e.CleanupBegins? || e.CloserTakes? || e.CloserCloses?)
    ensures AllSane(Happen(s, e))
  {
    hide Sync.Apply;
    SameSanity(s, Happen(s, e));
  }

  lemma {:induction false} RunsKeep(events: seq<Event>)
    ensures Inv(After(events))
  {
    if events == [] {
      Runs.RunsKeep([]);
    } else {
      RunsKeep(events[..|events| - 1]);
      StepKeeps(After(events[..|events| - 1]), events[|events| - 1]);
    }
  }

  // ---------------------------------------------------------------- what it means

  /** Every worker, connecting thread and closing thread has run to its end. */
  predicate AllDone(s: State) {
    && (forall k :: 0 <= k < |s.attempts| ==> s.attempts[k].worker == Finished && s.attempts[k].caller == Over)
    && (forall c :: 0 <= c < |s.closers| ==> s.closers[c].phase == Closed)
  }

  /** The threads that hold sockets: the resolver worker or the connecting thread of an attempt, or a closing thread. */
  datatype Holder = AsWorker(k: nat) | AsCaller(k: nat) | AsCloser(c: nat)

  predicate Holds(s: State, h: Holder, x: Socket) {
    match h
    case AsWorker(k) => k < |s.attempts| && s.attempts[k].candidate == Some(x)
    case AsCaller(k) => k < |s.attempts| && (s.attempts[k].slot == Some(x) || s.attempts[k].connected == Some(x))
    case AsCloser(c) => c < |s.closers| && Taken(s.closers[c], x)
  }

  /** The thread whose step the event is. */
  function Actor(e: Event): Option<Holder> {
    match e
    case WorkerResolves(k) => Some(AsWorker(k))
    case WorkerCreates(k) => Some(AsWorker(k))
    case WorkerPublishes(k) => Some(AsWorker(k))
    case WorkerFails(k) => Some(AsWorker(k))
    case WorkerCleans(k) => Some(AsWorker(k))
    case CallerPolls(k, _) => Some(AsCaller(k))
    case CallerTakes(k, _) => Some(AsCaller(k))
    case CallerRegisters(k) => Some(AsCaller(k))
    case CallerReady(k) => Some(AsCaller(k))
    case CallerFails(k) => Some(AsCaller(k))
    case CallerAdopts(k, _) => Some(AsCaller(k))
    case CallerUnlists(k) => Some(AsCaller(k))
    case CallerCloses(k) => Some(AsCaller(k))
    case CloserTakes(c) => Some(AsCloser(c))
    case CloserCloses(c) => Some(AsCloser(c))
    case _ => None
  }

  /** The thread is not blocked: some step of its own is possible. */
  ghost predicate CanAct(s: State, h: Holder) { exists e :: Possible(s, e) && Actor(e) == Some(h) }

  /** How many more steps the thread has at most, while it holds a socket. */
  function Ahead(s: State, h: Holder): nat {
    match h
    case AsWorker(k) =>
      if k >= |s.attempts| then 0
      else
        (match s.attempts[k].worker
         case Resolving => 4
         case Resolved => 3
         case Made => 2
         case Cleaning => 1
         case Finished => 0)
    case AsCaller(k) =>
      if k >= |s.attempts| then 0
      else
        (match s.attempts[k].caller
         case Waiting => 6
         case Bare => 5
         case Listed => 4
         case Holding => 3
         case Dropping(listed) => if listed then 2 else 1
         case Over => 0)
    case AsCloser(c) =>
      if c >= |s.closers| then 0
      else
        (match s.closers[c].phase
         case Retired => 2
         case Took(_, _) => 1
         case Closed => 0)
  }

  lemma HolderCanAct(s: State, h: Holder, x: Socket)
    requires AllSane(s) && Holds(s, h, x)
    ensures CanAct(s, h)
  {
    match h
    case AsWorker(k) =>
      assert Sane(s.attempts[k]);
      assert Possible(s, WorkerFails(k)) || Possible(s, WorkerCleans(k));
    case AsCaller(k) =>
      assert Sane(s.attempts[k]);
      CallerCanAct(s, k);
    case AsCloser(c) =>
      assert Possible(s, CloserCloses(c));
  }

  lemma CallerCanAct(s: State, k: nat)
    requires k < |s.attempts| && s.attempts[k].caller != Over
    requires s.attempts[k].caller == Waiting ==> s.attempts[k].done
    ensures CanAct(s, AsCaller(k))
  {
    var e := match s.attempts[k].caller
      case Waiting => CallerTakes(k, false)
      case Bare => CallerRegisters(k)
      case Listed => CallerReady(k)
      case Holding => CallerAdopts(k, false)
      case Dropping(listed) => if listed then CallerUnlists(k) else CallerCloses(k)
      case Over => CloseBegins;
    assert Possible(s, e) && Actor(e) == Some(AsCaller(k));
  }

  /**
   A socket does not stay with a thread: each step of the holder leaves it fewer steps to go, no step of another thread
   takes the socket away or gives the holder more to do, and a holder without steps to go holds nothing.
   */
  lemma HolderMovesOn(s: State, e: Event, h: Holder, x: Socket)
    requires Inv(s) && Holds(s, h, x) && Possible(s, e)
    ensures Ahead(s, h) > 0
    ensures Actor(e) == Some(h) ==> Ahead(Happen(s, e), h) < Ahead(s, h)
    ensures Actor(e) != Some(h) ==> Ahead(Happen(s, e), h) == Ahead(s, h) && Holds(Happen(s, e), h, x)
  {
    hide Happen, Possible, Holds, Ahead, OneAttempt, Current, NothingLost, AllSane;
    HolderHasSteps(s, h, x);
    match h
    case AsWorker(k) => WorkerMovesOn(s, e, k, x);
    case AsCaller(k) => CallerMovesOn(s, e, k, x);
    case AsCloser(c) => CloserMovesOn(s, e, c, x);
  }

  lemma WorkerMovesOn(s: State, e: Event, k: nat, x: Socket)
    requires Holds(s, AsWorker(k), x) && Possible(s, e)
    ensures var h, s' := AsWorker(k), Happen(s, e);
            if Actor(e) == Some(h) then Ahead(s', h) < Ahead(s, h)
            else Ahead(s', h) == Ahead(s, h) && Holds(s', h, x)
  {
    hide Happen, Possible, Holds, Ahead;
    if Actor(e) == Some(AsWorker(k)) {
      WorkerSteps(s, e, k, x);
    } else {
      WorkerIsLeft(s, e, k, x);
    }
  }

  lemma WorkerSteps(s: State, e: Event, k: nat, x: Socket)
    requires Holds(s, AsWorker(k), x) && Possible(s, e) && Actor(e) == Some(AsWorker(k))
    ensures Ahead(Happen(s, e), AsWorker(k)) < Ahead(s, AsWorker(k))
  {
    hide Outdated, Busy, Inside, Sync.Happen, Sync.Apply, Sync.Possible;
  }

  /** A step of another thread leaves the worker where it is, with what it holds. */
  lemma WorkerIsLeft(s: State, e: Event, k: nat, x: Socket)
    requires Holds(s, AsWorker(k), x) && Possible(s, e) && Actor(e) != Some(AsWorker(k))
    ensures Ahead(Happen(s, e), AsWorker(k)) == Ahead(s, AsWorker(k)) && Holds(Happen(s, e), AsWorker(k), x)
  {
    hide Outdated, Busy, Inside, Sync.Happen, Sync.Apply, Sync.Possible;
    var s' := Happen(s, e);
    assert s'.attempts[k].worker == s.attempts[k].worker && s'.attempts[k].candidate == s.attempts[k].candidate;
  }

  lemma CallerMovesOn(s: State, e: Event, k: nat, x: Socket)
    requires AllSane(s) && Holds(s, AsCaller(k), x) && Possible(s, e)
    ensures var h, s' := AsCaller(k), Happen(s, e);
            if Actor(e) == Some(h) then Ahead(s', h) < Ahead(s, h)
            else Ahead(s', h) == Ahead(s, h) && Holds(s', h, x)
  {
    hide Happen, Possible, Holds, Ahead, AllSane;
    if Actor(e) == Some(AsCaller(k)) {
      CallerSteps(s, e, k, x);
    } else {
      CallerIsLeft(s, e, k, x);
    }
  }

  lemma CallerSteps(s: State, e: Event, k: nat, x: Socket)
    requires AllSane(s) && Holds(s, AsCaller(k), x) && Possible(s, e) && Actor(e) == Some(AsCaller(k))
    ensures Ahead(Happen(s, e), AsCaller(k)) < Ahead(s, AsCaller(k))
  {
    hide Outdated, Busy, Inside, Sync.Happen, Sync.Apply, Sync.Possible;
    assert Sane(s.attempts[k]);
    hide AllSane, Sane;
  }

  /** A step of another thread leaves the connecting thread where it is, with what it holds. */
  lemma CallerIsLeft(s: State, e: Event, k: nat, x: Socket)
    requires AllSane(s) && Holds(s, AsCaller(k), x) && Possible(s, e) && Actor(e) != Some(AsCaller(k))
    ensures Ahead(Happen(s, e), AsCaller(k)) == Ahead(s, AsCaller(k)) && Holds(Happen(s, e), AsCaller(k), x)
  {
    hide Outdated, Busy, Inside, Sync.Happen, Sync.Apply, Sync.Possible;
    assert Sane(s.attempts[k]);
    hide AllSane;
    var s' := Happen(s, e);
    assert s'.attempts[k].caller == s.attempts[k].caller && s'.attempts[k].connected == s.attempts[k].connected;
    assert s.attempts[k].slot == Some(x) ==> s'.attempts[k].slot == Some(x);
  }

  lemma CloserMovesOn(s: State, e: Event, c: nat, x: Socket)
    requires Holds(s, AsCloser(c), x) && Possible(s, e)
    ensures var h, s' := AsCloser(c), Happen(s, e);
            if Actor(e) == Some(h) then Ahead(s', h) < Ahead(s, h)
            else Ahead(s', h) == Ahead(s, h) && Holds(s', h, x)
  {
    hide Outdated, Busy, Inside, Sync.Happen, Sync.Apply, Sync.Possible;
  }

  /**
   In every run each socket ever created is closed, or held by the client, or held by a thread that is not blocked and,
   as `HolderMovesOn` says, closes it or hands it on within a few steps of its own; so once all threads are done, every
   socket but the one the client holds is closed.
   */
  lemma NoSocketLeaks(events: seq<Event>)
    ensures var s := After(events);
            && (forall x: Socket :: x < s.created ==>
                  x in s.shut || s.sock == Some(x) || exists h :: Holds(s, h, x) && CanAct(s, h))
            && (AllDone(s) ==> forall x: Socket :: x < s.created ==> x in s.shut || s.sock == Some(x))
  {
    RunsKeep(events);
    var s := After(events);
    hide After, OneAttempt, Current, CanAct, Possible, Sane;
    forall x: Socket | x < s.created && x !in s.shut && s.sock != Some(x)
      ensures exists h :: Holds(s, h, x) && CanAct(s, h) && Ahead(s, h) > 0
    {
      var h := HolderOf(s, x);
      HolderCanAct(s, h, x);
      HolderHasSteps(s, h, x);
    }
    hide AllSane, NothingLost;
    if AllDone(s) { forall h ensures Ahead(s, h) == 0 { DoneHasNone(s, h); } }
  }

  lemma HolderOf(s: State, x: Socket) returns (h: Holder)
    requires Held(s, x) && s.sock != Some(x)
    ensures Holds(s, h, x)
  {
    if k :| 0 <= k < |s.attempts| && Keeps(s.attempts[k], x) {
      h := if s.attempts[k].candidate == Some(x) then AsWorker(k) else AsCaller(k);
    } else {
      var c :| 0 <= c < |s.closers| && Taken(s.closers[c], x);
      h := AsCloser(c);
    }
  }

  lemma HolderHasSteps(s: State, h: Holder, x: Socket)
    requires AllSane(s) && Holds(s, h, x)
    ensures Ahead(s, h) > 0
  {
    match h
    case AsWorker(k) => assert Sane(s.attempts[k]);
    case AsCaller(k) => assert Sane(s.attempts[k]);
    case AsCloser(c) =>
  }

  lemma DoneHasNone(s: State, h: Holder)
    requires AllDone(s)
    ensures Ahead(s, h) == 0
  {
  }

  /**
   Once a close has returned, and ever after, the client holds no socket adopted under a generation before that close.
   */
  lemma CloseIsFinal(events: seq<Event>, c: nat)
    ensures var s := After(events);
            c < |s.closers| && s.closers[c].phase == Closed && s.sock.Some? ==> s.adopted >= s.closers[c].generation
  {
    RunsKeep(events);
    hide After, OneAttempt, NothingLost, AllSane;
  }
}
