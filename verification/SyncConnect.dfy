/**
 Connecting and closing in the threaded client: connecting threads, one resolver worker per hostname attempt, and any
 number of closing threads. Every section under a lock or condition is one step; between them other threads run.
 */
module SyncConnect {
  import opened Wrappers
  import Sync = SyncAdmission

  type Thread = Sync.Thread

  /** Sockets are numbered in the order of their creation. */
  type Socket = nat

  /** The worker checks for abandonment before it creates the socket and before it publishes it, and cleans up last. */
  datatype WorkerPhase = Resolving | Resolved | Made | Cleaning | Finished

  /**
   The connecting thread. `Waiting` is the hostname path up to the hand-over; `Bare` and `Listed` are the numeric path
   before and after the candidate is registered; `Dropping` is any exception after a socket exists.
   */
  datatype CallerPhase = Waiting | Bare | Listed | Holding | Dropping(listed: bool) | Over

  /** `slot` is the socket the worker published; `connected` is the connecting thread's own. */
  datatype Attempt = Attempt(
    thread: Thread,
    abandoned: bool,
    done: bool,
    candidate: Option<Socket>,
    slot: Option<Socket>,
    connected: Option<Socket>,
    worker: WorkerPhase,
    caller: CallerPhase)

  /** `close` retires the generation first, takes the sockets under the guard, and closes them last. */
  datatype CloserPhase = Retired | Took(first: Option<Socket>, second: Option<Socket>) | Closed

  /** `generation` is the generation begun by this close; zero for the cleanup after a failed exchange. */
  datatype Closer = Closer(generation: nat, phase: CloserPhase)

  /** `sock` and `connecting` are the client's fields; `adopted` is the generation `sock` was adopted under. */
  datatype State = State(
    turns: Sync.System,
    attempts: seq<Attempt>,
    closers: seq<Closer>,
    sock: Option<Socket>,
    adopted: nat,
    connecting: Option<Socket>,
    created: nat,
    shut: set<Socket>)

  const Start := State(Sync.Start, [], [], None, 0, None, 0, {})

  datatype Event =
    | Turn(event: Sync.Event)
    | Connect(thread: Thread, numeric: bool)
    | WorkerResolves(k: nat)
    | WorkerCreates(k: nat)
    | WorkerPublishes(k: nat)
    | WorkerFails(k: nat)
    | WorkerCleans(k: nat)
    | CallerPolls(k: nat, expired: bool)
    | CallerTakes(k: nat, expired: bool)
    | CallerRegisters(k: nat)
    | CallerReady(k: nat)
    | CallerFails(k: nat)
    | CallerAdopts(k: nat, expired: bool)
    | CallerUnlists(k: nat)
    | CallerCloses(k: nat)
    | CloseBegins
    | CleanupBegins
    | CloserTakes(c: nat)
    | CloserCloses(c: nat)

  predicate Inside(s: State, thread: Thread) { Sync.Depth(s.turns.lock, thread) > 0 }

  predicate Active(a: Attempt) { a.caller != Over }

  predicate Busy(s: State, thread: Thread) {
    exists k :: 0 <= k < |s.attempts| && Active(s.attempts[k]) && s.attempts[k].thread == thread
  }

  predicate Outdated(s: State, a: Attempt) { Sync.WasInvalidatedFor(s.turns.lock, a.thread) }

  predicate Worker(s: State, k: nat, phase: WorkerPhase) { k < |s.attempts| && s.attempts[k].worker == phase }

  predicate Caller(s: State, k: nat, phase: CallerPhase) { k < |s.attempts| && s.attempts[k].caller == phase }

  predicate Possible(s: State, e: Event) {
    match e
    case Turn(event) =>
      Sync.Possible(s.turns, event) && !event.Close? && !Busy(s, event.thread)
    case Connect(thread, _) => Inside(s, thread) && !Busy(s, thread) && s.sock == None
    case WorkerResolves(k) => Worker(s, k, Resolving)
    case WorkerCreates(k) => Worker(s, k, Resolved)
    case WorkerPublishes(k) => Worker(s, k, Made)
    case WorkerFails(k) => Worker(s, k, Resolving) || Worker(s, k, Resolved) || Worker(s, k, Made)
    case WorkerCleans(k) => Worker(s, k, Cleaning)
    case CallerPolls(k, _) => Caller(s, k, Waiting) && !s.attempts[k].done
    case CallerTakes(k, _) => Caller(s, k, Waiting) && s.attempts[k].done
    case CallerRegisters(k) => Caller(s, k, Bare)
    case CallerReady(k) => Caller(s, k, Listed)
    case CallerFails(k) => Caller(s, k, Bare) || Caller(s, k, Listed)
    case CallerAdopts(k, _) => Caller(s, k, Holding)
    case CallerUnlists(k) => Caller(s, k, Dropping(true))
    case CallerCloses(k) => Caller(s, k, Dropping(false))
    case CloseBegins => true
    case CleanupBegins => true
    case CloserTakes(c) => c < |s.closers| && s.closers[c].phase == Retired
    case CloserCloses(c) => c < |s.closers| && s.closers[c].phase.Took?
  }

  function With(s: State, k: nat, a: Attempt): State
    requires k < |s.attempts|
  {
    s.(attempts := s.attempts[k := a])
  }

  function Only(x: Option<Socket>): set<Socket> { if x.Some? then {x.value} else {} }

  function Happen(s: State, e: Event): State
    requires Possible(s, e)
  {
    match e
    case Turn(event) => s.(turns := Sync.Happen(s.turns, event))
    case Connect(thread, numeric) =>
      if numeric then
        s.(attempts := s.attempts + [Attempt(thread, false, false, None, None, Some(s.created), Finished, Bare)],
           created := s.created + 1)
      else
        s.(attempts := s.attempts + [Attempt(thread, false, false, None, None, None, Resolving, Waiting)])
    case WorkerResolves(k) =>
      var a := s.attempts[k];
      With(s, k, a.(worker := if a.abandoned then Cleaning else Resolved))
    case WorkerCreates(k) =>
      With(s.(created := s.created + 1), k, s.attempts[k].(candidate := Some(s.created), worker := Made))
    case WorkerPublishes(k) =>
      var a := s.attempts[k];
      if a.abandoned then With(s, k, a.(worker := Cleaning))
      else With(s, k, a.(slot := a.candidate, done := true, candidate := None, worker := Cleaning))
    case WorkerFails(k) =>
      var a := s.attempts[k];
      With(s, k, a.(done := a.done || !a.abandoned, worker := Cleaning))
    case WorkerCleans(k) =>
      var a := s.attempts[k];
      With(s.(shut := s.shut + Only(a.candidate)), k, a.(candidate := None, worker := Finished))
    case CallerPolls(k, expired) =>
      var a := s.attempts[k];
      if Outdated(s, a) || expired then With(s, k, a.(abandoned := true, caller := Over)) else s
    case CallerTakes(k, expired) =>
      var a := s.attempts[k];
      if Outdated(s, a) then
        With(s.(shut := s.shut + Only(a.slot)), k, a.(abandoned := true, slot := None, caller := Over))
      else if a.slot == None then With(s, k, a.(caller := Over))
      else if expired then With(s.(shut := s.shut + Only(a.slot)), k, a.(slot := None, caller := Over))
      else With(s, k, a.(slot := None, connected := a.slot, caller := Holding))
    case CallerRegisters(k) =>
      var a := s.attempts[k];
      if Outdated(s, a) || s.connecting.Some? then With(s, k, a.(caller := Dropping(false)))
      else With(s.(connecting := a.connected), k, a.(caller := Listed))
    case CallerReady(k) => With(s, k, s.attempts[k].(caller := Holding))
    case CallerFails(k) => With(s, k, s.attempts[k].(caller := Dropping(s.attempts[k].caller == Listed)))
    case CallerAdopts(k, expired) =>
      var a := s.attempts[k];
      if Outdated(s, a) || expired || (s.connecting.Some? && s.connecting != a.connected) then
        With(s, k, a.(caller := Dropping(true)))
      else
        With(s.(connecting := None, sock := a.connected, adopted := s.turns.lock.generation), k,
             a.(connected := None, caller := Over))
    case CallerUnlists(k) =>
      var a := s.attempts[k];
      With(if s.connecting == a.connected then s.(connecting := None) else s, k, a.(caller := Dropping(false)))
    case CallerCloses(k) =>
      var a := s.attempts[k];
      With(s.(shut := s.shut + Only(a.connected)), k, a.(connected := None, caller := Over))
    case CloseBegins =>
      var turns := Sync.Apply(s.turns, Sync.Close);
      s.(turns := turns, closers := s.closers + [Closer(turns.lock.generation, Retired)])
    case CleanupBegins => s.(closers := s.closers + [Closer(0, Retired)])
    case CloserTakes(c) =>
      s.(sock := None, connecting := None,
         closers := s.closers[c := Closer(s.closers[c].generation, Took(s.sock, s.connecting))])
    case CloserCloses(c) =>
      var phase := s.closers[c].phase;
      s.(shut := s.shut + Only(phase.first) + Only(phase.second),
         closers := s.closers[c := Closer(s.closers[c].generation, Closed)])
  }

  function Apply(s: State, e: Event): State { if Possible(s, e) then Happen(s, e) else s }

  function After(events: seq<Event>): State {
    if events == [] then Start else Apply(After(events[..|events| - 1]), events[|events| - 1])
  }
}
