/**
 The turn lock of the async client: arrival-ordered, reentrant, cancellable while waiting, and invalidated by close.

 Code between two awaits is atomic, so a run is a sequence of events: a task enters, a waiter resumes, a waiter is
 cancelled, the owner leaves, the client is closed. An event that cannot happen in a state leaves it unchanged.
 */
module AsyncAdmission {
  import opened Wrappers

  type Task = nat

  /** A waiter's future: pending, completed by a grant, or completed with the closed error. */
  datatype FutureState = Pending | Granted | Closed

  datatype Waiter = Waiter(task: Task, generation: nat, ticket: nat)

  /** `futures` stands for the future object of every waiter ever created. */
  datatype Lock = Lock(
    owner: Option<Task>,
    ownerGeneration: nat,
    depth: nat,
    queue: seq<Waiter>,
    nextTicket: nat,
    generation: nat,
    futures: map<nat, FutureState>)

  const Unlocked := Lock(None, 0, 0, [], 0, 0, map[])

  predicate InQueue(queue: seq<Waiter>, ticket: nat) {
    exists i :: 0 <= i < |queue| && queue[i].ticket == ticket
  }

  /** `__aenter__` up to its await, by a task that does not own the lock. */
  function Enqueue(l: Lock, task: Task): Lock {
    var t := l.nextTicket;
    if l.owner == None && l.queue == [] then
      l.(owner := Some(task), ownerGeneration := l.generation, depth := 1, nextTicket := t + 1,
         futures := l.futures[t := Granted])
    else
      l.(queue := l.queue + [Waiter(task, l.generation, t)], nextTicket := t + 1, futures := l.futures[t := Pending])
  }

  /** Completes a future unless it is already done. */
  function Complete(futures: map<nat, FutureState>, ticket: nat, state: FutureState): map<nat, FutureState> {
    if ticket in futures && futures[ticket] != Pending then futures else futures[ticket := state]
  }

  /** `_release_owner`: leave one level, and hand the lock to the first waiter when it was the last. */
  function Release(l: Lock, task: Task): Lock {
    if l.owner != Some(task) then l
    else if l.depth > 1 then l.(depth := l.depth - 1)
    else if l.queue == [] then l.(owner := None, depth := 0)
    else
      var w := l.queue[0];
      l.(owner := Some(w.task), ownerGeneration := w.generation, depth := 1, queue := l.queue[1..],
         futures := Complete(l.futures, w.ticket, Granted))
  }

  function Without(queue: seq<Waiter>, ticket: nat): seq<Waiter> {
    if queue == [] then []
    else if queue[0].ticket == ticket then queue[1..]
    else [queue[0]] + Without(queue[1..], ticket)
  }

  /** The cancellation branch of `__aenter__`: leave the queue, or give back a turn that was already granted. */
  function Abandon(l: Lock, task: Task, ticket: nat): Lock {
    if InQueue(l.queue, ticket) then l.(queue := Without(l.queue, ticket))
    else if l.owner == Some(task) then Release(l, task)
    else l
  }

  function CloseAll(futures: map<nat, FutureState>, queue: seq<Waiter>): map<nat, FutureState>
    decreases |queue|
  {
    if queue == [] then futures else CloseAll(Complete(futures, queue[0].ticket, Closed), queue[1..])
  }

  /** `invalidate`: a new generation, and every queued waiter completed with the closed error. */
  function Invalidated(l: Lock): Lock {
    l.(generation := l.generation + 1, queue := [], futures := CloseAll(l.futures, l.queue))
  }

  predicate ActiveWasInvalidated(l: Lock) { l.owner != None && l.ownerGeneration != l.generation }

  // ---------------------------------------------------------------- the lock in place

  class AsyncFifoAdmission {
    var owner: Option<Task>
    var ownerGeneration: nat
    var depth: nat
    var queue: seq<Waiter>
    var nextTicket: nat
    var generation: nat
    var futures: map<nat, FutureState>

    function Value(): Lock
      reads this
    {
      Lock(owner, ownerGeneration, depth, queue, nextTicket, generation, futures)
    }

    constructor ()
      ensures Value() == Unlocked
    {
      owner, ownerGeneration, depth, queue, nextTicket, generation, futures := None, 0, 0, [], 0, 0, map[];
    }

    /** Up to the await: the ticket to wait on, or none when the task already owns the lock. */
    method Enter(task: Task) returns (ticket: Option<nat>)
      modifies this
      ensures old(owner) == Some(task) ==> ticket == None && Value() == old(Value()).(depth := old(depth) + 1)
      ensures old(owner) != Some(task) ==> ticket == Some(old(nextTicket)) && Value() == Enqueue(old(Value()), task)
    {
      if owner == Some(task) {
        depth := depth + 1;
        return None;
      }
      var mine := nextTicket;
      nextTicket := nextTicket + 1;
      var waiter := Waiter(task, generation, mine);
      if owner == None && queue == [] {
        owner := Some(task);
        ownerGeneration := generation;
        depth := 1;
        futures := futures[mine := Granted];
      } else {
        futures := futures[mine := Pending];
        queue := queue + [waiter];
      }
      return Some(mine);
    }

    /** What `__aenter__` does when its await is cancelled. */
    method CancelWait(task: Task, ticket: nat)
      modifies this
      ensures Value() == Abandon(old(Value()), task, ticket)
    {
      var removed := Pop(ticket);
      if !removed && owner == Some(task) {
        ReleaseOwner(task);
      }
    }

    method Pop(ticket: nat) returns (removed: bool)
      modifies `queue
      ensures removed == InQueue(old(queue), ticket)
      ensures queue == if removed then Without(old(queue), ticket) else old(queue)
    {
      var i := 0;
      while i < |queue| && queue[i].ticket != ticket
        invariant i <= |queue| && queue == old(queue)
        invariant forall k :: 0 <= k < i ==> queue[k].ticket != ticket
      {
        i := i + 1;
      }
      removed := i < |queue|;
      if removed {
        WithoutAt(queue, i);
        queue := queue[..i] + queue[i + 1..];
      }
    }

    method ReleaseOwner(task: Task)
      modifies this
      ensures Value() == Release(old(Value()), task)
    {
      if owner != Some(task) { return; }
      if depth > 1 {
        depth := depth - 1;
        return;
      }
      owner := None;
      depth := 0;
      if queue != [] {
        var waiter := queue[0];
        queue := queue[1..];
        owner := Some(waiter.task);
        ownerGeneration := waiter.generation;
        depth := 1;
        if !(waiter.ticket in futures && futures[waiter.ticket] != Pending) {
          futures := futures[waiter.ticket := Granted];
        }
      }
    }

    method Invalidate()
      modifies this
      ensures Value() == Invalidated(old(Value()))
    {
      generation := generation + 1;
      while queue != []
        invariant Value() == old(Value()).(generation := old(generation) + 1, queue := queue, futures := futures)
        invariant CloseAll(futures, queue) == CloseAll(old(futures), old(queue))
        decreases |queue|
      {
        var waiter := queue[0];
        queue := queue[1..];
        if !(waiter.ticket in futures && futures[waiter.ticket] != Pending) {
          futures := futures[waiter.ticket := Closed];
        }
      }
    }

    method WasInvalidated() returns (r: bool)
      ensures r == ActiveWasInvalidated(Value())
    {
      return owner != None && ownerGeneration != generation;
    }
  }

  lemma {:induction false} WithoutAt(queue: seq<Waiter>, i: nat)
    requires i < |queue| && forall k :: 0 <= k < i ==> queue[k].ticket != queue[i].ticket
    ensures Without(queue, queue[i].ticket) == queue[..i] + queue[i + 1..]
  {
    if i > 0 {
      assert queue[1..][i - 1] == queue[i];
      WithoutAt(queue[1..], i - 1);
      assert [queue[0]] + queue[1..][..i - 1] == queue[..i];
    }
  }

  // ---------------------------------------------------------------- tasks using the lock

  datatype Ending = Finished | Cancelled | Rejected

  /** What became of a ticket: its task waits, runs its body, or is done with it. */
  datatype Fate = Waiting | Running | Ended(how: Ending)

  /**
   `latest` is the ticket each task drew last. `granted`, `closesSinceGrant` and `ran` are history: the tickets in
   grant order, the closes since the last grant, and the tickets whose body ever started.
   */
  datatype System = System(
    lock: Lock,
    fate: map<nat, Fate>,
    holder: map<nat, Task>,
    latest: map<Task, nat>,
    granted: seq<nat>,
    closesSinceGrant: nat,
    ran: set<nat>)

  datatype Event = Enter(task: Task) | Resume(ticket: nat) | Cancel(ticket: nat) | Exit(task: Task) | Close

  const Start := System(Unlocked, map[], map[], map[], [], 0, {})

  predicate IsWaiting(s: System, ticket: nat) { ticket in s.fate && s.fate[ticket] == Waiting }

  /** A task awaits one ticket at a time, and runs no other code meanwhile. */
  predicate Suspended(s: System, task: Task) {
    task in s.latest && IsWaiting(s, s.latest[task])
  }

  predicate Owns(s: System, task: Task) { s.lock.owner == Some(task) && !Suspended(s, task) }

  predicate Possible(s: System, e: Event) {
    match e
    case Enter(task) => !Suspended(s, task)
    case Resume(t) => IsWaiting(s, t) && t in s.lock.futures && s.lock.futures[t] != Pending
    case Cancel(t) => IsWaiting(s, t) && t in s.holder
    case Exit(task) => Owns(s, task) && s.granted != []
    case Close => true
  }

  /** Records that the head of the old queue was granted, when the lock changed hands. */
  function HandOver(s: System, l: Lock): System {
    if |l.queue| < |s.lock.queue| then
      s.(lock := l, granted := s.granted + [s.lock.queue[0].ticket], closesSinceGrant := 0)
    else s.(lock := l)
  }

  function Happen(s: System, e: Event): System
    requires Possible(s, e)
  {
    match e
    case Enter(task) =>
      if s.lock.owner == Some(task) then s.(lock := s.lock.(depth := s.lock.depth + 1))
      else
        var t, l := s.lock.nextTicket, Enqueue(s.lock, task);
        if l.owner == Some(task) then
          System(l, s.fate[t := Running], s.holder[t := task], s.latest[task := t], s.granted + [t], 0, s.ran + {t})
        else
          s.(lock := l, fate := s.fate[t := Waiting], holder := s.holder[t := task], latest := s.latest[task := t])
    case Resume(t) =>
      if s.lock.futures[t] == Granted then s.(fate := s.fate[t := Running], ran := s.ran + {t})
      else s.(fate := s.fate[t := Ended(Rejected)])
    case Cancel(t) =>
      var l := Abandon(s.lock, s.holder[t], t);
      var s' := s.(fate := s.fate[t := Ended(Cancelled)]);
      if InQueue(s.lock.queue, t) then s'.(lock := l) else HandOver(s', l)
    case Exit(task) =>
      var s' := HandOver(s, Release(s.lock, task));
      if s.lock.depth > 1 then s'
      else s'.(fate := s.fate[s.granted[|s.granted| - 1] := Ended(Finished)])
    case Close => s.(lock := Invalidated(s.lock), closesSinceGrant := s.closesSinceGrant + 1)
  }

  function Apply(s: System, e: Event): System { if Possible(s, e) then Happen(s, e) else s }

  function After(events: seq<Event>): System {
    if events == [] then Start else Apply(After(events[..|events| - 1]), events[|events| - 1])
  }
}
