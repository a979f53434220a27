/** What every run of the async turn lock keeps: one owner, arrival order, no lost wakeup, exact generations. */
module AsyncAdmissionRuns {
  import opened Wrappers
  import opened AsyncAdmission

  predicate Increasing(ts: seq<nat>) { forall i, j :: 0 <= i < j < |ts| ==> ts[i] < ts[j] }

  function Last(ts: seq<nat>): nat
    requires ts != []
  {
    ts[|ts| - 1]
  }

  /** Tickets are numbered in arrival order, and each has a fate, a task and a future. */
  ghost predicate Numbered(s: System) {
    && (forall t: nat :: t in s.fate <==> t < s.lock.nextTicket)
    && (forall t: nat :: t in s.holder <==> t < s.lock.nextTicket)
    && (forall t: nat :: t in s.lock.futures <==> t < s.lock.nextTicket)
  }

  ghost predicate InOrder(queue: seq<Waiter>) {
    forall i, j :: 0 <= i < j < |queue| ==> queue[i].ticket < queue[j].ticket
  }

  /** Queued waiters stand in ticket order, still pending, under the current generation. */
  ghost predicate Queued(s: System)
    requires Numbered(s)
  {
    && InOrder(s.lock.queue)
    && (forall i :: 0 <= i < |s.lock.queue| ==>
          var w := s.lock.queue[i];
          && w.ticket < s.lock.nextTicket && s.fate[w.ticket] == Waiting && s.lock.futures[w.ticket] == Pending
          && s.holder[w.ticket] == w.task && w.generation == s.lock.generation)
  }

  /** Grants happen in ticket order, and every queued ticket is later than all of them. */
  ghost predicate Ordered(s: System)
    requires Numbered(s)
  {
    && Increasing(s.granted)
    && (forall i :: 0 <= i < |s.granted| ==>
          s.granted[i] < s.lock.nextTicket && s.lock.futures[s.granted[i]] == Granted)
    && (s.granted != [] && s.lock.queue != [] ==> Last(s.granted) < s.lock.queue[0].ticket)
  }

  /** The owner is the task of the last grant; without an owner nobody waits. */
  ghost predicate Owned(s: System)
    requires Numbered(s)
  {
    match s.lock.owner
    case None => s.lock.queue == [] && s.lock.depth == 0
    case Some(task) =>
      && s.granted != [] && Last(s.granted) < s.lock.nextTicket && !s.fate[Last(s.granted)].Ended?
      && s.holder[Last(s.granted)] == task
      && s.lock.depth >= 1 && (s.fate[Last(s.granted)] == Waiting ==> s.lock.depth == 1)
      && s.lock.ownerGeneration + s.closesSinceGrant == s.lock.generation
  }

  /** A ticket that is not ended is queued, or closed and about to be told, or the owner's. */
  ghost predicate Placed(s: System)
    requires Numbered(s)
  {
    && (forall t: nat :: t in s.fate && s.fate[t] == Running ==>
          s.lock.owner != None && s.granted != [] && t == Last(s.granted))
    && (forall t: nat :: t in s.fate && s.fate[t] == Waiting ==>
          match s.lock.futures[t]
          case Pending => InQueue(s.lock.queue, t)
          case Granted => s.lock.owner != None && s.granted != [] && t == Last(s.granted)
          case Closed => true)
    && (forall t: nat :: t in s.fate && !s.fate[t].Ended? ==>
          s.holder[t] in s.latest && s.latest[s.holder[t]] == t)
  }

  /** Only granted tickets ever ran, and a ticket that ended otherwise than by finishing never did. */
  ghost predicate Told(s: System)
    requires Numbered(s)
  {
    && (forall t: nat :: t in s.ran ==>
          && t < s.lock.nextTicket && s.lock.futures[t] == Granted
          && (s.fate[t] == Running || s.fate[t] == Ended(Finished)))
    && (forall t: nat :: t in s.fate && (s.fate[t] == Running || s.fate[t] == Ended(Finished)) ==> t in s.ran)
    && (forall t: nat :: t in s.fate && s.fate[t] == Ended(Rejected) ==> s.lock.futures[t] == Closed)
  }

  ghost predicate Inv(s: System) {
    Numbered(s) && Queued(s) && Ordered(s) && Owned(s) && Placed(s) && Told(s)
  }

  // ---------------------------------------------------------------- each event keeps the invariant

  lemma EnterFreeOrders(s: System, task: Task)
    requires Inv(s) && Possible(s, Enter(task)) && s.lock.owner == None
    ensures var s' := Happen(s, Enter(task)); Numbered(s') && Queued(s') && Ordered(s') && Owned(s')
  {
    hide Placed, Told;
  }

  lemma EnterFreePlaces(s: System, task: Task)
    requires Inv(s) && Possible(s, Enter(task)) && s.lock.owner == None
    ensures var s' := Happen(s, Enter(task)); Numbered(s') && Placed(s')
  {
    hide Ordered, Told;
  }

  lemma EnterFreeTells(s: System, task: Task)
    requires Inv(s) && Possible(s, Enter(task)) && s.lock.owner == None
    ensures var s' := Happen(s, Enter(task)); Numbered(s') && Told(s')
  {
    hide Queued, Ordered, Placed;
  }

  /** A new waiter stands last. */
  lemma EnterQueueQueued(s: System, task: Task)
    requires Inv(s) && Possible(s, Enter(task)) && s.lock.owner.Some? && s.lock.owner != Some(task)
    ensures var s' := Happen(s, Enter(task)); Numbered(s') && Queued(s')
  {
    hide Ordered, Owned, Placed, Told;
    var q, q' := s.lock.queue, Happen(s, Enter(task)).lock.queue;
    assert forall k :: 0 <= k < |q'| ==>
      q'[k] == if k < |q| then q[k] else Waiter(task, s.lock.generation, s.lock.nextTicket);
  }

  lemma EnterQueueOrders(s: System, task: Task)
    requires Inv(s) && Possible(s, Enter(task)) && s.lock.owner.Some? && s.lock.owner != Some(task)
    ensures var s' := Happen(s, Enter(task)); Numbered(s') && Ordered(s')
  {
    hide Queued, Owned, Placed, Told;
    var q, q' := s.lock.queue, Happen(s, Enter(task)).lock.queue;
    assert q != [] ==> q'[0] == q[0];
  }

  lemma EnterQueueOwns(s: System, task: Task)
    requires Inv(s) && Possible(s, Enter(task)) && s.lock.owner.Some? && s.lock.owner != Some(task)
    ensures var s' := Happen(s, Enter(task)); Numbered(s') && Owned(s')
  {
    hide Queued, Ordered, Placed, Told;
  }

  lemma EnterQueueTells(s: System, task: Task)
    requires Inv(s) && Possible(s, Enter(task)) && s.lock.owner.Some? && s.lock.owner != Some(task)
    ensures var s' := Happen(s, Enter(task)); Numbered(s') && Told(s')
  {
    hide Queued, Ordered, Owned, Placed;
  }

  lemma EnterQueuePlaces(s: System, task: Task)
    requires Inv(s) && Possible(s, Enter(task)) && s.lock.owner.Some? && s.lock.owner != Some(task)
    ensures var s' := Happen(s, Enter(task)); Numbered(s') && Placed(s')
  {
    hide Queued, Ordered, Told, InQueue;
    OneMoreWaits(s.lock.queue, Waiter(task, s.lock.generation, s.lock.nextTicket));
  }

  /** A waiter added at the end leaves the others in the queue. */
  lemma OneMoreWaits(q: seq<Waiter>, w: Waiter)
    ensures InQueue(q + [w], w.ticket) && forall u :: InQueue(q, u) ==> InQueue(q + [w], u)
  {
    assert (q + [w])[|q|].ticket == w.ticket;
    forall u | InQueue(q, u) ensures InQueue(q + [w], u) {
      var i :| 0 <= i < |q| && q[i].ticket == u;
      assert (q + [w])[i].ticket == u;
    }
  }

  lemma EnterKeeps(s: System, task: Task)
    requires Inv(s) && Possible(s, Enter(task))
    ensures Inv(Happen(s, Enter(task)))
  {
    if s.lock.owner == None {
      EnterFreeOrders(s, task);
      EnterFreePlaces(s, task);
      EnterFreeTells(s, task);
    } else if s.lock.owner != Some(task) {
      EnterQueueQueued(s, task);
      EnterQueueOrders(s, task);
      EnterQueueOwns(s, task);
      EnterQueueTells(s, task);
      EnterQueuePlaces(s, task);
    }
  }

  /** A waiter resumes with the outcome its future holds; only its fate changes. */
  function Resumed(s: System, t: nat): System {
    if t in s.lock.futures && s.lock.futures[t] == Granted then s.(fate := s.fate[t := Running], ran := s.ran + {t})
    else s.(fate := s.fate[t := Ended(Rejected)])
  }

  lemma ResumeOrders(s: System, t: nat)
    requires Inv(s) && IsWaiting(s, t) && s.lock.futures[t] != Pending
    ensures var s' := Resumed(s, t); Numbered(s') && Queued(s') && Ordered(s') && Owned(s')
  {
    hide Told;
  }

  lemma ResumePlaces(s: System, t: nat)
    requires Inv(s) && IsWaiting(s, t) && s.lock.futures[t] != Pending
    ensures var s' := Resumed(s, t); Numbered(s') && Placed(s')
  {
    hide Told;
  }

  lemma ResumeTells(s: System, t: nat)
    requires Inv(s) && IsWaiting(s, t) && s.lock.futures[t] != Pending
    ensures var s' := Resumed(s, t); Numbered(s') && Told(s')
  {
    hide Queued, Ordered, Owned;
  }

  lemma ResumeKeeps(s: System, t: nat)
    requires Inv(s) && Possible(s, Resume(t))
    ensures Inv(Happen(s, Resume(t)))
  {
    ResumeOrders(s, t);
    ResumePlaces(s, t);
    ResumeTells(s, t);
  }

  lemma {:induction false} ClosedFutures(futures: map<nat, FutureState>, queue: seq<Waiter>)
    requires forall i :: 0 <= i < |queue| ==> queue[i].ticket in futures
    ensures CloseAll(futures, queue).Keys == futures.Keys
    ensures forall t: nat :: t in futures ==>
      CloseAll(futures, queue)[t] == if futures[t] == Pending && InQueue(queue, t) then Closed else futures[t]
    decreases |queue|
  {
    if queue != [] {
      var f := Complete(futures, queue[0].ticket, Closed);
      assert f.Keys == futures.Keys;
      ClosedFutures(f, queue[1..]);
      forall t | t in futures
        ensures InQueue(queue, t) <==> t == queue[0].ticket || InQueue(queue[1..], t)
      {
        if InQueue(queue[1..], t) {
          var i :| 0 <= i < |queue[1..]| && queue[1..][i].ticket == t;
          assert queue[i + 1].ticket == t;
        }
        if InQueue(queue, t) && t != queue[0].ticket {
          var i :| 0 <= i < |queue| && queue[i].ticket == t;
          assert queue[1..][i - 1].ticket == t;
        }
      }
    }
  }

  lemma CloseKeeps(s: System)
    requires Inv(s)
    ensures Inv(Happen(s, Close))
  {
    CloseOrders(s);
    ClosePlaces(s);
    CloseTells(s);
    hide Queued, Ordered, Owned, Placed, Told;
  }

  lemma CloseOrders(s: System)
    requires Inv(s)
    ensures var s' := Happen(s, Close); Numbered(s') && Queued(s') && Ordered(s') && Owned(s')
  {
    hide Placed, Told;
    ClosedFutures(s.lock.futures, s.lock.queue);
  }

  lemma ClosePlaces(s: System)
    requires Inv(s)
    ensures var s' := Happen(s, Close); Numbered(s') && Placed(s')
  {
    hide Ordered, Owned, Told;
    ClosedFutures(s.lock.futures, s.lock.queue);
  }

  lemma CloseTells(s: System)
    requires Inv(s)
    ensures var s' := Happen(s, Close); Numbered(s') && Told(s')
  {
    hide Ordered, Owned, Placed;
    ClosedFutures(s.lock.futures, s.lock.queue);
  }

  /** Between two owners: everything the invariant says but who owns the lock. */
  ghost predicate Free(s: System) {
    && Numbered(s) && Queued(s) && Ordered(s) && Placed(s) && Told(s)
    && s.lock.owner == None && s.lock.depth == 0
  }

  /** The head of the queue, if there is one, becomes the owner. */
  function Grant(s: System): System {
    if s.lock.queue == [] then s
    else
      var w := s.lock.queue[0];
      s.(lock := s.lock.(owner := Some(w.task), ownerGeneration := w.generation, depth := 1, queue := s.lock.queue[1..],
                         futures := Complete(s.lock.futures, w.ticket, Granted)),
         granted := s.granted + [w.ticket], closesSinceGrant := 0)
  }

  lemma GrantKeeps(s: System)
    requires Free(s)
    ensures Inv(Grant(s))
  {
    if s.lock.queue != [] {
      GrantQueued(s);
      GrantOrders(s);
      GrantTells(s);
      GrantPlaces(s);
    }
    hide Queued, Ordered, Placed, Told;
  }

  lemma GrantQueued(s: System)
    requires Free(s) && s.lock.queue != []
    ensures Numbered(Grant(s)) && Queued(Grant(s))
  {
    hide Ordered, Placed, Told;
  }

  lemma GrantOrders(s: System)
    requires Free(s) && s.lock.queue != []
    ensures Numbered(Grant(s)) && Ordered(Grant(s)) && Owned(Grant(s))
  {
    hide Placed, Told;
  }

  lemma GrantTells(s: System)
    requires Free(s) && s.lock.queue != []
    ensures Numbered(Grant(s)) && Told(Grant(s))
  {
    hide Ordered, Placed;
  }

  lemma GrantPlaces(s: System)
    requires Free(s) && s.lock.queue != []
    ensures Numbered(Grant(s)) && Placed(Grant(s))
  {
    hide Ordered, Told;
    var s', w := Grant(s), s.lock.queue[0];
    forall u | InQueue(s.lock.queue, u) && u != w.ticket ensures InQueue(s'.lock.queue, u) {
      var i :| 0 <= i < |s.lock.queue| && s.lock.queue[i].ticket == u;
      assert s'.lock.queue[i - 1].ticket == u;
    }
  }

  /** The owner's ticket ends and the lock is momentarily free. */
  function Freed(s: System, how: Ending): System
    requires s.granted != []
  {
    s.(lock := s.lock.(owner := None, depth := 0), fate := s.fate[Last(s.granted) := Ended(how)])
  }

  lemma FreedIsFree(s: System, how: Ending)
    requires Inv(s) && s.lock.owner.Some? && how != Rejected
    requires how == Finished <==> s.fate[Last(s.granted)] == Running
    ensures Free(Freed(s, how))
  {
    var s' := Freed(s, how);
    assert Numbered(s') && Queued(s') && Ordered(s');
    assert Told(s');
    assert Placed(s');
  }

  /** A waiter that already holds the lock gives it back. */
  lemma CancelGranted(s: System, t: nat)
    requires Inv(s) && Possible(s, Cancel(t)) && !InQueue(s.lock.queue, t) && s.lock.owner == Some(s.holder[t])
    ensures t == Last(s.granted) && s.fate[t] == Waiting && s.lock.depth == 1
    ensures Happen(s, Cancel(t)) == Grant(Freed(s, Cancelled))
  {
  }

  /** A waiter that was closed only forgets about it. */
  lemma CancelClosed(s: System, t: nat)
    requires Inv(s) && IsWaiting(s, t) && s.lock.futures[t] == Closed
    ensures Inv(s.(fate := s.fate[t := Ended(Cancelled)]))
  {
    var s' := s.(fate := s.fate[t := Ended(Cancelled)]);
    ClosedPlaces(s, t);
    ClosedTells(s, t);
    hide Placed, Told;
    assert Queued(s') && Ordered(s') && Owned(s');
  }

  lemma ClosedPlaces(s: System, t: nat)
    requires Inv(s) && IsWaiting(s, t) && s.lock.futures[t] == Closed
    ensures var s' := s.(fate := s.fate[t := Ended(Cancelled)]); Numbered(s') && Placed(s')
  {
    hide Queued, Ordered, Owned, Told;
  }

  lemma ClosedTells(s: System, t: nat)
    requires Inv(s) && IsWaiting(s, t) && s.lock.futures[t] == Closed
    ensures var s' := s.(fate := s.fate[t := Ended(Cancelled)]); Numbered(s') && Told(s')
  {
    hide Queued, Ordered, Owned, Placed;
  }

  lemma CancelKeeps(s: System, t: nat)
    requires Inv(s) && Possible(s, Cancel(t))
    ensures Inv(Happen(s, Cancel(t)))
  {
    if InQueue(s.lock.queue, t) {
      var i :| 0 <= i < |s.lock.queue| && s.lock.queue[i].ticket == t;
      WithoutAt(s.lock.queue, i);
      LeaveQueueOrders(s, i);
      LeaveQueueOwns(s, i);
      LeaveQueuePlaces(s, i);
      LeaveQueueTells(s, i);
      assert Happen(s, Cancel(t)) == LeaveQueue(s, i);
    } else if s.lock.owner == Some(s.holder[t]) {
      CancelGranted(s, t);
      FreedIsFree(s, Cancelled);
      GrantKeeps(Freed(s, Cancelled));
    } else {
      CancelClosed(s, t);
    }
  }

  /** The waiter at `i` leaves the queue, its future still pending. */
  function LeaveQueue(s: System, i: nat): System
    requires i < |s.lock.queue|
  {
    var q := s.lock.queue;
    s.(lock := s.lock.(queue := q[..i] + q[i + 1..]), fate := s.fate[q[i].ticket := Ended(Cancelled)])
  }

  lemma LeaveQueueOrders(s: System, i: nat)
    requires Inv(s) && i < |s.lock.queue|
    ensures var s' := LeaveQueue(s, i); Numbered(s') && Queued(s')
  {
    hide Ordered, Owned, Placed, Told;
    var q, q' := s.lock.queue, LeaveQueue(s, i).lock.queue;
    assert forall k :: 0 <= k < |q'| ==> q'[k] == if k < i then q[k] else q[k + 1];
  }

  lemma LeaveQueueOwns(s: System, i: nat)
    requires Inv(s) && i < |s.lock.queue|
    ensures var s' := LeaveQueue(s, i); Numbered(s') && Ordered(s') && Owned(s')
  {
    hide Placed, Told;
  }

  lemma LeaveQueueTells(s: System, i: nat)
    requires Inv(s) && i < |s.lock.queue|
    ensures var s' := LeaveQueue(s, i); Numbered(s') && Told(s')
  {
    hide Ordered, Owned, Placed;
  }

  lemma OthersStay(q: seq<Waiter>, i: nat)
    requires i < |q|
    ensures forall u :: InQueue(q, u) && u != q[i].ticket ==> InQueue(q[..i] + q[i + 1..], u)
  {
    var q' := q[..i] + q[i + 1..];
    forall u | InQueue(q, u) && u != q[i].ticket ensures InQueue(q', u) {
      var k :| 0 <= k < |q| && q[k].ticket == u;
      assert q'[if k < i then k else k - 1].ticket == u;
    }
  }

  lemma LeaveQueuePlaces(s: System, i: nat)
    requires Inv(s) && i < |s.lock.queue|
    ensures var s' := LeaveQueue(s, i); Numbered(s') && Placed(s')
  {
    hide Ordered, Owned, Told, InQueue;
    OthersStay(s.lock.queue, i);
  }

  lemma FullExit(s: System, task: Task)
    requires s.lock.owner == Some(task) && s.lock.depth == 1 && s.granted != [] && Possible(s, Exit(task))
    ensures Happen(s, Exit(task)) == Grant(Freed(s, Finished))
  {
  }

  lemma ExitKeeps(s: System, task: Task)
    requires Inv(s) && Possible(s, Exit(task))
    ensures Inv(Happen(s, Exit(task)))
  {
    if s.lock.depth > 1 {
      assert Happen(s, Exit(task)) == s.(lock := s.lock.(depth := s.lock.depth - 1));
    } else {
      assert s.fate[Last(s.granted)] == Running;
      FreedIsFree(s, Finished);
      GrantKeeps(Freed(s, Finished));
      FullExit(s, task);
    }
  }

  lemma ApplyKeeps(s: System, e: Event)
    requires Inv(s)
    ensures Inv(Apply(s, e))
  {
    if Possible(s, e) {
      match e
      case Enter(task) => EnterKeeps(s, task);
      case Resume(t) => ResumeKeeps(s, t);
      case Cancel(t) => CancelKeeps(s, t);
      case Exit(task) => ExitKeeps(s, task);
      case Close => CloseKeeps(s);
    }
  }

  lemma {:induction false} RunsKeep(events: seq<Event>)
    ensures Inv(After(events))
  {
    if events == [] {
      assert Numbered(Start);
    } else {
      RunsKeep(events[..|events| - 1]);
      ApplyKeeps(After(events[..|events| - 1]), events[|events| - 1]);
    }
  }

  // ---------------------------------------------------------------- what the invariant means for every run

  /**
   In every run: at most one ticket runs its body and its task owns the lock; tickets are granted in strictly
   increasing order; a cancelled or closed ticket never ran its body.
   */
  lemma OneOwnerInOrder(events: seq<Event>)
    ensures var s := After(events);
            && (forall t, u :: t in s.fate && u in s.fate && s.fate[t] == s.fate[u] == Running ==> t == u)
            && (forall t :: t in s.fate && s.fate[t] == Running ==> t in s.holder && s.lock.owner == Some(s.holder[t]))
            && Increasing(s.granted)
            && (forall t :: t in s.fate && (s.fate[t] == Ended(Cancelled) || s.fate[t] == Ended(Rejected)) ==>
                  t !in s.ran)
  {
    RunsKeep(events);
  }

  /**
   In every run nobody waits for a free lock: queued waiters imply an owner, an owner that has not started can start,
   every queued waiter is of the current generation, and the owner sees itself invalidated exactly when a close
   happened after its grant.
   */
  lemma NoLostWakeup(events: seq<Event>)
    ensures var s := After(events);
            && (s.lock.queue != [] ==> s.lock.owner.Some?)
            && (s.lock.owner.Some? ==>
                  && s.granted != []
                  && (IsWaiting(s, Last(s.granted)) ==> Possible(s, Resume(Last(s.granted)))))
            && (forall i :: 0 <= i < |s.lock.queue| ==> s.lock.queue[i].generation == s.lock.generation)
            && (s.lock.owner.Some? ==> (ActiveWasInvalidated(s.lock) <==> s.closesSinceGrant > 0))
            && (forall t :: IsWaiting(s, t) ==> InQueue(s.lock.queue, t) || Possible(s, Resume(t)))
  {
    RunsKeep(events);
  }

  /** A ticket ends once: no event changes how it ended, or starts a body it did not have. */
  lemma EndsOnce(s: System, e: Event, t: nat)
    requires Inv(s) && t in s.fate && s.fate[t].Ended?
    ensures t in Apply(s, e).fate && Apply(s, e).fate[t] == s.fate[t]
    ensures t in Apply(s, e).ran <==> t in s.ran
  {
  }

  /** Waiters in front of a ticket. */
  function Ahead(queue: seq<Waiter>, t: nat): nat {
    if queue == [] || queue[0].ticket == t then 0 else 1 + Ahead(queue[1..], t)
  }

  lemma {:induction false} AheadAt(queue: seq<Waiter>, i: nat)
    requires i < |queue| && InOrder(queue)
    ensures Ahead(queue, queue[i].ticket) == i
  {
    if i > 0 {
      assert queue[1..][i - 1] == queue[i];
      AheadAt(queue[1..], i - 1);
    }
  }

  /** The queue only grows at its end, loses one waiter, or is emptied. */
  ghost predicate QueueChange(q: seq<Waiter>, q': seq<Waiter>) {
    || q' == q || q' == []
    || (|q'| == |q| + 1 && q'[..|q|] == q)
    || exists k :: 0 <= k < |q| && q' == q[..k] + q[k + 1..]
  }

  lemma ReleaseQueue(s: System)
    requires s.granted != []
    ensures QueueChange(s.lock.queue, Grant(s).lock.queue)
    ensures s.lock.queue != [] ==> Grant(s).lock.queue == s.lock.queue[1..]
  {
    var q := s.lock.queue;
    if q != [] { assert q[1..] == q[..0] + q[0 + 1..]; }
  }

  /** The owner gives up the lock: it leaves its last level, or is cancelled after the grant and before it resumed. */
  predicate FullRelease(s: System, e: Event) {
    && Possible(s, e)
    && ((e.Exit? && s.lock.depth == 1)
        || (e.Cancel? && e.ticket in s.lock.futures && s.lock.futures[e.ticket] == Granted))
  }

  lemma CancelQueue(s: System, t: nat)
    requires Inv(s) && Possible(s, Cancel(t))
    ensures QueueChange(s.lock.queue, Happen(s, Cancel(t)).lock.queue)
    ensures FullRelease(s, Cancel(t)) && s.lock.queue != [] ==> Happen(s, Cancel(t)).lock.queue == s.lock.queue[1..]
  {
    var q := s.lock.queue;
    if InQueue(q, t) {
      var k :| 0 <= k < |q| && q[k].ticket == t;
      WithoutAt(q, k);
    } else if s.lock.owner == Some(s.holder[t]) {
      CancelGranted(s, t);
      ReleaseQueue(Freed(s, Cancelled));
    }
  }

  lemma QueueChanges(s: System, e: Event)
    requires Inv(s)
    ensures QueueChange(s.lock.queue, Apply(s, e).lock.queue)
    ensures FullRelease(s, e) && s.lock.queue != [] ==> Apply(s, e).lock.queue == s.lock.queue[1..]
  {
    if Possible(s, e) {
      match e
      case Cancel(t) => CancelQueue(s, t);
      case Exit(task) =>
        if s.lock.depth == 1 {
          FullExit(s, task);
          ReleaseQueue(Freed(s, Finished));
        }
      case _ =>
    }
  }

  lemma AheadAfterChange(q: seq<Waiter>, q': seq<Waiter>, t: nat)
    requires QueueChange(q, q') && InOrder(q) && InOrder(q') && InQueue(q, t) && InQueue(q', t)
    ensures Ahead(q', t) <= Ahead(q, t)
    ensures q' == q[1..] ==> Ahead(q', t) == Ahead(q, t) - 1
  {
    var i :| 0 <= i < |q| && q[i].ticket == t;
    var j :| 0 <= j < |q'| && q'[j].ticket == t;
    AheadAt(q, i);
    AheadAt(q', j);
    if |q'| == |q| + 1 && q'[..|q|] == q {
      assert q'[i] == q'[..|q|][i];
    }
  }

  /** Nobody overtakes: the number of waiters ahead of a queued ticket never grows, and each full release lowers it. */
  lemma NeverOvertaken(s: System, e: Event, t: nat)
    requires Inv(s) && InQueue(s.lock.queue, t) && InQueue(Apply(s, e).lock.queue, t)
    ensures Ahead(Apply(s, e).lock.queue, t) <= Ahead(s.lock.queue, t)
    ensures FullRelease(s, e) ==> Ahead(Apply(s, e).lock.queue, t) == Ahead(s.lock.queue, t) - 1
  {
    ApplyKeeps(s, e);
    QueueChanges(s, e);
    AheadAfterChange(s.lock.queue, Apply(s, e).lock.queue, t);
  }
}
