/**
 The turn lock of the threaded client. Each section under the guard is one atomic step; between them other threads run.
 Nesting depth and generation are thread-local, so they are kept per thread.
 */
module SyncAdmission {
  import opened Wrappers

  type Thread = nat

  /** A waiter's event: not set, set by a grant, or set together with the closed error. */
  datatype Signal = Unset | Granted | Closed

  datatype Waiter = Waiter(thread: Thread, generation: nat, id: nat)

  /** `signals` stands for the event and error of every waiter ever created; `depth` and `seen` are thread-local. */
  datatype Lock = Lock(
    active: bool,
    queue: seq<Waiter>,
    generation: nat,
    nextId: nat,
    signals: map<nat, Signal>,
    depth: map<Thread, nat>,
    seen: map<Thread, nat>)

  const Unlocked := Lock(false, [], 0, 0, map[], map[], map[])

  function Depth(l: Lock, thread: Thread): nat { if thread in l.depth then l.depth[thread] else 0 }

  /** The guarded section of `__enter__`. */
  function Arrive(l: Lock, thread: Thread): Lock {
    var id := l.nextId;
    if !l.active && l.queue == [] then
      l.(active := true, nextId := id + 1, signals := l.signals[id := Granted])
    else
      l.(queue := l.queue + [Waiter(thread, l.generation, id)], nextId := id + 1, signals := l.signals[id := Unset])
  }

  /** The end of `__enter__`, once the event is set without an error. */
  function Begin(l: Lock, thread: Thread, generation: nat): Lock {
    l.(depth := l.depth[thread := 1], seen := l.seen[thread := generation])
  }

  function Leave(l: Lock, thread: Thread): Lock {
    if Depth(l, thread) > 1 then l.(depth := l.depth[thread := Depth(l, thread) - 1])
    else
      var l0 := l.(depth := l.depth[thread := 0]);
      if l.queue == [] then l0.(active := false)
      else l0.(active := true, queue := l.queue[1..], signals := l.signals[l.queue[0].id := Granted])
  }

  function CloseAll(signals: map<nat, Signal>, queue: seq<Waiter>): map<nat, Signal>
    decreases |queue|
  {
    if queue == [] then signals else CloseAll(signals[queue[0].id := Closed], queue[1..])
  }

  function Invalidated(l: Lock): Lock {
    l.(generation := l.generation + 1, queue := [], signals := CloseAll(l.signals, l.queue))
  }

  /** A thread that never took a turn sees the current generation. */
  predicate WasInvalidatedFor(l: Lock, thread: Thread) { thread in l.seen && l.seen[thread] != l.generation }

  class SyncFifoAdmission {
    var active: bool
    var queue: seq<Waiter>
    var generation: nat
    var nextId: nat
    var signals: map<nat, Signal>
    var depth: map<Thread, nat>
    var seen: map<Thread, nat>

    function Value(): Lock
      reads this
    {
      Lock(active, queue, generation, nextId, signals, depth, seen)
    }

    constructor ()
      ensures Value() == Unlocked
    {
      active, queue, generation, nextId, signals, depth, seen := false, [], 0, 0, map[], map[], map[];
    }

    /** `__enter__` up to the wait: the waiter to wait on, or none for a nested entry. */
    method Enter(thread: Thread) returns (waiter: Option<Waiter>)
      modifies this
      ensures Depth(old(Value()), thread) > 0 ==>
        waiter == None && Value() == old(Value()).(depth := old(depth)[thread := Depth(old(Value()), thread) + 1])
      ensures Depth(old(Value()), thread) == 0 ==>
        waiter == Some(Waiter(thread, old(generation), old(nextId))) && Value() == Arrive(old(Value()), thread)
    {
      var mine := if thread in depth then depth[thread] else 0;
      if mine != 0 {
        depth := depth[thread := mine + 1];
        return None;
      }
      var w := Waiter(thread, generation, nextId);
      nextId := nextId + 1;
      if !active && queue == [] {
        active := true;
        signals := signals[w.id := Granted];
      } else {
        signals := signals[w.id := Unset];
        queue := queue + [w];
      }
      return Some(w);
    }

    /** `__enter__` after the wait: whether the turn was taken rather than refused. */
    method Wake(waiter: Waiter) returns (taken: bool)
      requires waiter.id in signals && signals[waiter.id] != Unset
      modifies this
      ensures taken == (old(signals)[waiter.id] != Closed)
      ensures Value() == if taken then Begin(old(Value()), waiter.thread, waiter.generation) else old(Value())
    {
      if signals[waiter.id] == Closed { return false; }
      depth := depth[waiter.thread := 1];
      seen := seen[waiter.thread := waiter.generation];
      return true;
    }

    method Exit(thread: Thread)
      modifies this
      ensures Value() == Leave(old(Value()), thread)
    {
      var mine := if thread in depth then depth[thread] else 0;
      if mine > 1 {
        depth := depth[thread := mine - 1];
        return;
      }
      depth := depth[thread := 0];
      active := false;
      if queue != [] {
        var waiter := queue[0];
        queue := queue[1..];
        active := true;
        signals := signals[waiter.id := Granted];
      }
    }

    method Invalidate()
      modifies this
      ensures Value() == Invalidated(old(Value()))
    {
      generation := generation + 1;
      while queue != []
        invariant Value() == old(Value()).(generation := old(generation) + 1, queue := queue, signals := signals)
        invariant CloseAll(signals, queue) == CloseAll(old(signals), old(queue))
        decreases |queue|
      {
        var waiter := queue[0];
        queue := queue[1..];
        signals := signals[waiter.id := Closed];
      }
    }

    method ActiveWasInvalidated(thread: Thread) returns (r: bool)
      ensures r == WasInvalidatedFor(Value(), thread)
    {
      var mine := if thread in seen then seen[thread] else generation;
      return mine != generation;
    }
  }

  // ---------------------------------------------------------------- threads using the lock

  /**
   `waiters` and `turn`, `granted`, `closesSinceGrant` are history: who waits how, whose turn it is, and since when.
   */
  datatype System = System(
    lock: Lock,
    waiters: map<nat, Waiter>,
    blocked: map<Thread, nat>,
    turn: Option<nat>,
    granted: seq<nat>,
    closesSinceGrant: nat)

  datatype Event = Enter(thread: Thread) | Wake(thread: Thread) | Exit(thread: Thread) | Close

  const Start := System(Unlocked, map[], map[], None, [], 0)

  predicate Possible(s: System, e: Event) {
    match e
    case Enter(thread) => thread !in s.blocked
    case Wake(thread) =>
      && thread in s.blocked && s.blocked[thread] in s.waiters
      && s.blocked[thread] in s.lock.signals && s.lock.signals[s.blocked[thread]] != Unset
    case Exit(thread) => thread !in s.blocked && Depth(s.lock, thread) > 0
    case Close => true
  }

  function Happen(s: System, e: Event): System
    requires Possible(s, e)
  {
    match e
    case Enter(thread) =>
      if Depth(s.lock, thread) > 0 then
        s.(lock := s.lock.(depth := s.lock.depth[thread := Depth(s.lock, thread) + 1]))
      else
        var id, l := s.lock.nextId, Arrive(s.lock, thread);
        var s' := s.(lock := l, waiters := s.waiters[id := Waiter(thread, s.lock.generation, id)],
                     blocked := s.blocked[thread := id]);
        if l.signals[id] == Granted then s'.(turn := Some(id), granted := s.granted + [id], closesSinceGrant := 0)
        else s'
    case Wake(thread) =>
      var id := s.blocked[thread];
      var s' := s.(blocked := s.blocked - {thread});
      if s.lock.signals[id] == Granted then s'.(lock := Begin(s.lock, thread, s.waiters[id].generation)) else s'
    case Exit(thread) =>
      var s' := s.(lock := Leave(s.lock, thread));
      if Depth(s.lock, thread) > 1 then s'
      else if s.lock.queue == [] then s'.(turn := None)
      else
        var id := s.lock.queue[0].id;
        s'.(turn := Some(id), granted := s.granted + [id], closesSinceGrant := 0)
    case Close => s.(lock := Invalidated(s.lock), closesSinceGrant := s.closesSinceGrant + 1)
  }

  function Apply(s: System, e: Event): System { if Possible(s, e) then Happen(s, e) else s }

  function After(events: seq<Event>): System {
    if events == [] then Start else Apply(After(events[..|events| - 1]), events[|events| - 1])
  }
}
