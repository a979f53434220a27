/** What every run of the threaded turn lock keeps. */
module SyncAdmissionRuns {
  import opened Wrappers
  import opened SyncAdmission

  predicate InQueue(queue: seq<Waiter>, id: nat) { exists i :: 0 <= i < |queue| && queue[i].id == id }

  predicate Increasing(ids: seq<nat>) { forall i, j :: 0 <= i < j < |ids| ==> ids[i] < ids[j] }

  function Last(ids: seq<nat>): nat
    requires ids != []
  {
    ids[|ids| - 1]
  }

  ghost predicate Numbered(s: System) {
    && (forall id: nat :: id in s.lock.signals <==> id < s.lock.nextId)
    && (forall id: nat :: id in s.waiters <==> id < s.lock.nextId)
  }

  /** Queued waiters stand in arrival order, blocked and unset, under the current generation. */
  ghost predicate Queued(s: System)
    requires Numbered(s)
  {
    && (forall i, j :: 0 <= i < j < |s.lock.queue| ==> s.lock.queue[i].id < s.lock.queue[j].id)
    && (forall i :: 0 <= i < |s.lock.queue| ==>
          var w := s.lock.queue[i];
          && w.id < s.lock.nextId && s.waiters[w.id] == w && s.lock.signals[w.id] == Unset
          && w.generation == s.lock.generation && w.thread in s.blocked && s.blocked[w.thread] == w.id)
  }

  ghost predicate Ordered(s: System)
    requires Numbered(s)
  {
    && Increasing(s.granted)
    && (forall i :: 0 <= i < |s.granted| ==> s.granted[i] < s.lock.nextId)
    && (s.granted != [] && s.lock.queue != [] ==> Last(s.granted) < s.lock.queue[0].id)
  }

  /** The turn belongs to the waiter granted last: its thread is about to wake or is inside. */
  ghost predicate Owned(s: System)
    requires Numbered(s)
  {
    match s.turn
    case None => !s.lock.active && s.lock.queue == []
    case Some(id) =>
      && s.lock.active && s.granted != [] && id == Last(s.granted) < s.lock.nextId && s.lock.signals[id] == Granted
      && s.waiters[id].generation + s.closesSinceGrant == s.lock.generation
      && var thread := s.waiters[id].thread;
         if Depth(s.lock, thread) == 0 then thread in s.blocked && s.blocked[thread] == id
         else thread in s.lock.seen && s.lock.seen[thread] == s.waiters[id].generation
  }

  ghost predicate Placed(s: System)
    requires Numbered(s)
  {
    && (forall thread: nat :: thread in s.lock.depth && s.lock.depth[thread] > 0 ==>
          && thread !in s.blocked && s.turn.Some? && s.turn.value < s.lock.nextId
          && s.waiters[s.turn.value].thread == thread)
    && (forall thread: nat :: thread in s.blocked ==>
          var id := s.blocked[thread];
          && id < s.lock.nextId && s.waiters[id].thread == thread
          && match s.lock.signals[id]
             case Unset => InQueue(s.lock.queue, id)
             case Granted => s.turn == Some(id)
             case Closed => true)
  }

  ghost predicate Inv(s: System) { Numbered(s) && Queued(s) && Ordered(s) && Owned(s) && Placed(s) }

  lemma EnterFreeOrders(s: System, thread: Thread)
    requires Inv(s) && Possible(s, Enter(thread)) && (s.turn == None || Depth(s.lock, thread) > 0)
    ensures var s' := Happen(s, Enter(thread)); Numbered(s') && Queued(s') && Ordered(s') && Owned(s')
  {
    hide Placed;
  }

  lemma EnterQueueOrders(s: System, thread: Thread)
    requires Inv(s) && Possible(s, Enter(thread)) && s.turn.Some? && Depth(s.lock, thread) == 0
    ensures var s' := Happen(s, Enter(thread)); Numbered(s') && Queued(s')
  {
    hide Ordered, Placed;
    var q, q' := s.lock.queue, Happen(s, Enter(thread)).lock.queue;
    assert forall k :: 0 <= k < |q'| ==>
      q'[k] == if k < |q| then q[k] else Waiter(thread, s.lock.generation, s.lock.nextId);
  }

  lemma EnterQueueOwns(s: System, thread: Thread)
    requires Inv(s) && Possible(s, Enter(thread)) && s.turn.Some? && Depth(s.lock, thread) == 0
    ensures var s' := Happen(s, Enter(thread)); Numbered(s') && Ordered(s') && Owned(s')
  {
    hide Queued, Placed;
    var q, q' := s.lock.queue, Happen(s, Enter(thread)).lock.queue;
    assert q != [] ==> |q'| == |q| + 1 && q'[0] == q[0];
  }

  /** A waiter added at the end leaves the others in the queue. */
  lemma OneMoreWaits(q: seq<Waiter>, w: Waiter)
    ensures InQueue(q + [w], w.id) && forall u :: InQueue(q, u) ==> InQueue(q + [w], u)
  {
    assert (q + [w])[|q|].id == w.id;
    forall u | InQueue(q, u) ensures InQueue(q + [w], u) {
      var i :| 0 <= i < |q| && q[i].id == u;
      assert (q + [w])[i].id == u;
    }
  }

  lemma EnterPlaces(s: System, thread: Thread)
    requires Inv(s) && Possible(s, Enter(thread))
    ensures var s' := Happen(s, Enter(thread)); Numbered(s') && Placed(s')
  {
    if Depth(s.lock, thread) > 0 {
      NestPlaces(s, thread);
    } else {
      ArrivePlaces(s, thread);
    }
    hide Inv, Placed, Happen;
  }

  lemma NestPlaces(s: System, thread: Thread)
    requires Inv(s) && Possible(s, Enter(thread)) && Depth(s.lock, thread) > 0
    ensures var s' := Happen(s, Enter(thread)); Numbered(s') && Placed(s')
  {
    hide Queued, Ordered, Owned, InQueue;
  }

  lemma ArrivePlaces(s: System, thread: Thread)
    requires Inv(s) && Possible(s, Enter(thread)) && Depth(s.lock, thread) == 0
    ensures var s' := Happen(s, Enter(thread)); Numbered(s') && Placed(s')
  {
    if s.turn == None { ArriveFree(s, thread); } else { ArriveLast(s, thread); }
    hide Inv, Placed, Happen;
  }

  lemma ArriveFree(s: System, thread: Thread)
    requires Inv(s) && Possible(s, Enter(thread)) && Depth(s.lock, thread) == 0 && s.turn == None
    ensures var s' := Happen(s, Enter(thread)); Numbered(s') && Placed(s')
  {
    hide Queued, Ordered, InQueue;
  }

  lemma ArriveLast(s: System, thread: Thread)
    requires Inv(s) && Possible(s, Enter(thread)) && Depth(s.lock, thread) == 0 && s.turn.Some?
    ensures var s' := Happen(s, Enter(thread)); Numbered(s') && Placed(s')
  {
    hide Queued, Ordered, InQueue;
    OneMoreWaits(s.lock.queue, Waiter(thread, s.lock.generation, s.lock.nextId));
  }

  lemma WakeKeeps(s: System, thread: Thread)
    requires Inv(s) && Possible(s, Wake(thread))
    ensures Inv(Happen(s, Wake(thread)))
  {
    WakeOrders(s, thread);
    WakeOwns(s, thread);
    WakePlaces(s, thread);
    hide Queued, Ordered, Owned, Placed;
  }

  lemma WakeOrders(s: System, thread: Thread)
    requires Inv(s) && Possible(s, Wake(thread))
    ensures var s' := Happen(s, Wake(thread)); Numbered(s') && Queued(s') && Ordered(s')
  {
    hide Owned, Placed;
  }

  lemma WakeOwns(s: System, thread: Thread)
    requires Inv(s) && Possible(s, Wake(thread))
    ensures var s' := Happen(s, Wake(thread)); Numbered(s') && Owned(s')
  {
    hide Queued, Ordered, InQueue;
  }

  lemma WakePlaces(s: System, thread: Thread)
    requires Inv(s) && Possible(s, Wake(thread))
    ensures var s' := Happen(s, Wake(thread)); Numbered(s') && Placed(s')
  {
    hide Queued, Ordered, InQueue;
  }

  lemma ExitOrders(s: System, thread: Thread)
    requires Inv(s) && Possible(s, Exit(thread))
    ensures var s' := Happen(s, Exit(thread)); Numbered(s') && Queued(s') && Ordered(s')
  {
    hide Placed;
    if Depth(s.lock, thread) == 1 && s.lock.queue != [] {
      var l, l' := s.lock, Leave(s.lock, thread);
      assert forall k :: 0 <= k < |l'.queue| ==> l'.queue[k] == l.queue[k + 1];
      assert l'.signals == l.signals[l.queue[0].id := Granted];
    }
  }

  lemma ExitOwns(s: System, thread: Thread)
    requires Inv(s) && Possible(s, Exit(thread))
    ensures var s' := Happen(s, Exit(thread)); Numbered(s') && Owned(s')
  {
  }

  lemma ExitPlaces(s: System, thread: Thread)
    requires Inv(s) && Possible(s, Exit(thread))
    ensures var s' := Happen(s, Exit(thread)); Numbered(s') && Placed(s')
  {
    hide Ordered, InQueue;
    if s.lock.queue != [] { OthersWait(s.lock.queue); }
  }

  /** When the first waiter leaves, the others stay in the queue. */
  lemma OthersWait(q: seq<Waiter>)
    requires q != []
    ensures forall u :: InQueue(q, u) && u != q[0].id ==> InQueue(q[1..], u)
  {
    forall u | InQueue(q, u) && u != q[0].id ensures InQueue(q[1..], u) {
      var i :| 0 <= i < |q| && q[i].id == u;
      assert q[1..][i - 1].id == u;
    }
  }

  lemma {:induction false} ClosedSignals(signals: map<nat, Signal>, queue: seq<Waiter>)
    requires forall i :: 0 <= i < |queue| ==> queue[i].id in signals
    ensures CloseAll(signals, queue).Keys == signals.Keys
    ensures forall id :: id in signals ==>
      CloseAll(signals, queue)[id] == if InQueue(queue, id) then Closed else signals[id]
    decreases |queue|
  {
    if queue != [] {
      var f := signals[queue[0].id := Closed];
      assert f.Keys == signals.Keys;
      ClosedSignals(f, queue[1..]);
      forall id | id in signals
        ensures InQueue(queue, id) <==> id == queue[0].id || InQueue(queue[1..], id)
      {
        if InQueue(queue[1..], id) {
          var i :| 0 <= i < |queue[1..]| && queue[1..][i].id == id;
          assert queue[i + 1].id == id;
        }
        if InQueue(queue, id) && id != queue[0].id {
          var i :| 0 <= i < |queue| && queue[i].id == id;
          assert queue[1..][i - 1].id == id;
        }
      }
    }
  }

  lemma CloseKeeps(s: System)
    requires Inv(s)
    ensures Inv(Happen(s, Close))
  {
    ClosedSignals(s.lock.signals, s.lock.queue);
  }

  lemma ApplyKeeps(s: System, e: Event)
    requires Inv(s)
    ensures Inv(Apply(s, e))
  {
    if Possible(s, e) {
      match e
      case Enter(thread) =>
        EnterPlaces(s, thread);
        if s.turn == None || Depth(s.lock, thread) > 0 { EnterFreeOrders(s, thread); }
        else {
          EnterQueueOrders(s, thread);
          EnterQueueOwns(s, thread);
        }
      case Wake(thread) => WakeKeeps(s, thread);
      case Exit(thread) =>
        ExitOrders(s, thread);
        ExitOwns(s, thread);
        ExitPlaces(s, thread);
      case Close => CloseKeeps(s);
    }
  }

  lemma {:induction false} RunsKeep(events: seq<Event>)
    ensures Inv(After(events))
  {
    if events == [] {
      assert Numbered(Start);
    } else {
      RunsKeep(events[..|events| - 1]);
      ApplyKeeps(After(events[..|events| - 1]), events[|events| - 1]);
    }
  }

  // ---------------------------------------------------------------- what the invariant means for every run

  predicate Inside(s: System, thread: Thread) { Depth(s.lock, thread) > 0 }

  /** In every run at most one thread is inside, and turns are granted in arrival order. */
  lemma OneThreadInOrder(events: seq<Event>)
    ensures var s := After(events);
            && (forall t, u :: Inside(s, t) && Inside(s, u) ==> t == u)
            && Increasing(s.granted)
  {
    RunsKeep(events);
  }

  /**
   In every run: queued waiters imply an active turn whose thread is inside or can wake, every blocked thread is queued
   or can wake, queued waiters are of the current generation, and the thread inside sees itself invalidated exactly
   when a close happened after its grant.
   */
  lemma NoLostWakeup(events: seq<Event>)
    ensures var s := After(events);
            && (s.lock.queue != [] ==> s.lock.active)
            && (s.lock.active ==>
                  exists t: Thread ::
                    Inside(s, t) || (t in s.blocked && s.turn == Some(s.blocked[t]) && Possible(s, Wake(t))))
            && (forall t :: t in s.blocked ==> InQueue(s.lock.queue, s.blocked[t]) || Possible(s, Wake(t)))
            && (forall i :: 0 <= i < |s.lock.queue| ==> s.lock.queue[i].generation == s.lock.generation)
            && (forall t :: Inside(s, t) ==> (WasInvalidatedFor(s.lock, t) <==> s.closesSinceGrant > 0))
  {
    RunsKeep(events);
    var s := After(events);
    if s.lock.active {
      var t := s.waiters[s.turn.value].thread;
      assert Inside(s, t) || (t in s.blocked && s.turn == Some(s.blocked[t]) && Possible(s, Wake(t)));
    }
    assert forall t :: Inside(s, t) ==> t in s.lock.depth && s.lock.depth[t] > 0;
  }

  /** The waiters ahead of a queued one never grow in number, and each full release lowers them by one. */
  lemma NeverOvertaken(s: System, e: Event, i: nat, j: nat)
    requires Inv(s) && i < |s.lock.queue| && j < |Apply(s, e).lock.queue|
    requires Apply(s, e).lock.queue[j].id == s.lock.queue[i].id
    ensures j <= i
    ensures Possible(s, e) && e.Exit? && Depth(s.lock, e.thread) == 1 ==> j == i - 1
  {
    QueueShape(s, e);
    QueueInOrder(s);
    hide Inv, Happen;
  }

  /** Waiters stand in strictly increasing order. */
  lemma QueueInOrder(s: System)
    requires Inv(s)
    ensures forall i, j :: 0 <= i < j < |s.lock.queue| ==> s.lock.queue[i].id < s.lock.queue[j].id
    ensures forall i :: 0 <= i < |s.lock.queue| ==> s.lock.queue[i].id < s.lock.nextId
  {
    hide Ordered, Owned, Placed;
  }

  /** A step adds a new waiter at the end, removes the first, empties the queue, or leaves it. */
  lemma QueueShape(s: System, e: Event)
    requires Inv(s)
    ensures var q, q' := s.lock.queue, Apply(s, e).lock.queue;
            || (q' == q && !(Possible(s, e) && e.Exit? && Depth(s.lock, e.thread) == 1 && q != []))
            || q' == []
            || (|q'| == |q| + 1 && q'[..|q|] == q && q'[|q|].id == s.lock.nextId && e.Enter?)
            || (q != [] && q' == q[1..])
  {
    hide Ordered, Owned, Placed;
  }
}
