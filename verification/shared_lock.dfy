/** The SharedLock class of lib/locking.py with its own data structures.

    Each method is what one thread does while it holds the internal lock.  It is proved to change
    the state exactly as the step function of LockSpec says, so everything proved there about runs
    holds for this class.  The assertions of the Python code stand at their places. */
module SharedLocks {
  import opened Basics
  import opened LockSpec
  import opened LockInvariants
  import opened PendingQueues
  import opened LockRuns

  /** The calls after notify_all() on each of the conditions cs. */
  function NotifiedIn(calls: map<Thread, Call>, cs: seq<CondRef>): (r: map<Thread, Call>) {
    map t | t in calls :: if calls[t].cond in cs then calls[t].(notified := true) else calls[t]
  }

  lemma NotifiedInSnoc(calls: map<Thread, Call>, cs: seq<CondRef>, c: CondRef)
    ensures Notified(NotifiedIn(calls, cs), c) == NotifiedIn(calls, cs + [c])
  {
  }

  /** The three pending structures agree. */
  ghost predicate Agree(pending: Entries, byPrio: map<int, QueueRef>, lists: Lists, conds: map<CondRef, Cond>,
                        nextList: QueueRef)
  {
    && Heap(pending, lists) && Index(pending, byPrio) && Filed(pending, lists, conds)
    && (forall q <- lists :: q < nextList)
  }

  /** A waiting thread still holds the list object under which its condition is filed. */
  ghost predicate Held(calls: map<Thread, Call>, frames: map<Thread, QueueRef>, conds: map<CondRef, Cond>,
                       byPrio: map<int, QueueRef>)
  {
    && frames.Keys == calls.Keys
    && (forall t <- calls :: calls[t].cond in conds && ListOf(conds, byPrio, calls[t].cond, frames[t]))
  }

  predicate ListOf(conds: map<CondRef, Cond>, byPrio: map<int, QueueRef>, c: CondRef, q: QueueRef)
    requires c in conds
  {
    conds[c].prio in byPrio && byPrio[conds[c].prio] == q
  }

  /** Dropping an empty list from the top of the heap touches nobody's condition. */
  lemma PopStep(pending: Entries, byPrio: map<int, QueueRef>, lists: Lists, conds: map<CondRef, Cond>,
                nextList: QueueRef, joinable: map<int, CondRef>)
    requires Agree(pending, byPrio, lists, conds, nextList) && pending != [] && lists[pending[0].1] == []
    requires forall c <- conds :: c in Flat(pending, lists)
    requires Joinables(joinable, conds)
    ensures Agree(pending[1..], byPrio - {pending[0].0}, lists, conds, nextList)
    ensures Flat(pending[1..], lists) == Flat(pending, lists)
    ensures forall c <- conds :: conds[c].prio != pending[0].0
    ensures pending[0].0 !in joinable
  {
    PopIndex(pending, byPrio, lists);
    PopFlat(pending, lists, conds);
  }

  lemma RemoveStep(pending: Entries, byPrio: map<int, QueueRef>, lists: Lists, conds: map<CondRef, Cond>,
                   nextList: QueueRef, c: CondRef, q: QueueRef)
    requires Agree(pending, byPrio, lists, conds, nextList)
    requires Lined(Flat(pending, lists), conds) && c in Flat(pending, lists)
    requires c in conds && ListOf(conds, byPrio, c, q)
    ensures q in lists && c in lists[q]
    ensures Agree(pending, byPrio, lists[q := Without(lists[q], c)], conds - {c}, nextList)
    ensures Flat(pending, lists[q := Without(lists[q], c)]) == Without(Flat(pending, lists), c)
  {
    var k := FiledAt(pending, byPrio, lists, conds, c);
    LinedDistinct(Flat(pending, lists), conds);
    ListDistinct(pending, lists, k);
    RemoveFlat(pending, lists, conds, k, c);
    RemoveFiled(pending, lists, conds, k, c);
  }

  lemma LinedDistinct(q: seq<CondRef>, conds: map<CondRef, Cond>)
    requires Lined(q, conds)
    ensures forall i, j | 0 <= i < j < |q| :: q[i] != q[j]
  {
  }

  class SharedLock {
    var deleted: bool
    var exc: Option<Thread>
    var shr: set<Thread>
    var pending: Entries
    var pendingByPrio: map<int, QueueRef>
    var pendingShared: map<int, CondRef>
    // list objects and condition objects, by reference
    var lists: Lists
    var conds: map<CondRef, Cond>
    var nextList: QueueRef
    var nextCond: CondRef
    // what waiting threads keep in their frames: their call, and the local variable prioqueue
    var calls: map<Thread, Call>
    var frames: map<Thread, QueueRef>

    ghost function Abs(): (s: State)
      reads this
      requires Heap(pending, lists)
    {
      State(deleted, exc, shr, Flat(pending, lists), conds, pendingShared, calls, nextCond)
    }

    ghost predicate Repr()
      reads this
    {
      Agree(pending, pendingByPrio, lists, conds, nextList) && Held(calls, frames, conds, pendingByPrio)
    }

    ghost predicate Valid()
      reads this
    {
      Repr() && Inv(Abs())
    }

    constructor ()
      ensures Valid() && Abs() == Init()
    {
      deleted, exc, shr := false, None, {};
      pending, pendingByPrio, pendingShared := [], map[], map[];
      lists, conds, nextList, nextCond := map[], map[], 0, 0;
      calls, frames := map[], map[];
    }

    /** __find_first_pending_queue: drops empty lists from the top of the heap. */
    method FindFirstPendingQueue() returns (first: Option<(int, QueueRef)>)
      requires Repr() && Shape(Abs())
      modifies this`pending, this`pendingByPrio
      ensures Repr() && Abs() == old(Abs())
      ensures first.None? <==> pending == []
      ensures first.None? <==> Abs().queue == []
      ensures first.Some? ==> pending != [] && first.value == pending[0] && lists[pending[0].1] != []
      ensures first.Some? ==> Abs().queue[0] == lists[pending[0].1][0]
      ensures forall c, q | c in conds && ListOf(conds, old(pendingByPrio), c, q) :: ListOf(conds, pendingByPrio, c, q)
    {
      hide Lined, Joinables, Index, Filed;
      while pending != []
        invariant Repr() && Abs() == old(Abs())
        invariant forall c, q | c in conds && ListOf(conds, old(pendingByPrio), c, q) :: ListOf(conds, pendingByPrio, c, q)
        decreases |pending|
      {
        var priority, prioqueue := pending[0].0, pending[0].1;
        if lists[prioqueue] != [] {
          return Some((priority, prioqueue));
        }
        PopStep(pending, pendingByPrio, lists, conds, nextList, pendingShared);
        pending := pending[1..];
        pendingByPrio := pendingByPrio - {priority};
        assert priority !in pendingShared;
      }
      return None;
    }

    /** The finally clause: the condition leaves its list when nobody waits on it any more. */
    method Cleanup(c: CondRef, prioqueue: QueueRef)
      requires Repr() && Shape(Abs()) && c in conds && ListOf(conds, pendingByPrio, c, prioqueue)
      modifies this`lists, this`conds, this`pendingShared
      ensures Repr() && Abs() == Drop(old(Abs()), c)
    {
      hide Lined, Joinables, Heap, Index, Filed, Agree, Held;
      if !HasWaiter(calls, c) {
        HeldShrunk(calls, frames, conds, pendingByPrio, c);
        RemoveStep(pending, pendingByPrio, lists, conds, nextList, c, prioqueue);
        assert c in lists[prioqueue];
        lists := lists[prioqueue := Without(lists[prioqueue], c)];
        if conds[c].shared {
          pendingShared := pendingShared - {conds[c].prio};
        }
        conds := conds - {c};
      }
    }

    /** PipeCondition.notify_all: every thread that waits on c at this moment. */
    method NotifyAll(c: CondRef)
      requires Repr()
      modifies this`calls
      ensures Repr() && calls == Notified(old(calls), c)
    {
      calls := Notified(calls, c);
    }

    method NotifyList(prioqueue: seq<CondRef>, ghost done: seq<CondRef>, ghost start: map<Thread, Call>)
      requires Repr() && calls == NotifiedIn(start, done)
      modifies this`calls
      ensures Repr() && calls == NotifiedIn(start, done + prioqueue)
    {
      assert done + prioqueue[..0] == done;
      for j := 0 to |prioqueue|
        invariant Repr() && calls == NotifiedIn(start, done + prioqueue[..j])
      {
        NotifyAll(prioqueue[j]);
        NotifiedInSnoc(start, done + prioqueue[..j], prioqueue[j]);
        assert done + prioqueue[..j + 1] == done + prioqueue[..j] + [prioqueue[j]];
      }
      assert prioqueue[..|prioqueue|] == prioqueue;
    }

    /** The end of delete(): the lock is marked and every condition of every list is notified. */
    method FinishDelete(t: Thread)
      requires Repr() && exc == Some(t)
      requires forall u <- calls :: calls[u].cond in Abs().queue
      modifies this`deleted, this`exc, this`calls
      ensures Repr() && Abs() == MarkDeleted(old(Abs()))
    {
      hide Index, Filed, Held;
      deleted, exc := true, None;
      ghost var start := calls;
      for i := 0 to |pending|
        modifies this`calls
        invariant Repr() && calls == NotifiedIn(start, Flat(pending[..i], lists))
      {
        NotifyList(lists[pending[i].1], Flat(pending[..i], lists), start);
        FlatSnoc(pending, lists, i);
      }
      assert pending[..|pending|] == pending;
      assert NotifiedIn(start, Flat(pending, lists)) == AllNotified(start);
    }

    /** One turn of the loop in __acquire_unlocked, with whatever follows it before the internal lock
        is given back. */
    method Turn(t: Thread, c: CondRef, prioqueue: QueueRef, timed: bool, deleting: bool, expired: bool)
      returns (out: Outcome)
      requires Repr() && AtLoop(Abs(), t, c, deleting) && ListOf(conds, pendingByPrio, c, prioqueue)
      modifies this
      ensures Valid() && (Abs(), out) == Settle(old(Abs()), t, c, timed, deleting, expired)
    {
      hide Lined, Joinables, Index, Filed, Callers, Busy, Owners, Awake, Inv, Flat, Held, Drop, Finish, Own;
      SettleKeeps(Abs(), t, c, timed, deleting, expired);
      var shared := conds[c].shared;
      var first := FindFirstPendingQueue();
      var onTop := lists[first.value.1][0] == c;
      if onTop && exc.None? && (shared || shr == {}) {
        Take(t, c, prioqueue, deleting);
        return Acquired;
      }
      if timed && expired {
        Cleanup(c, prioqueue);
        return GaveUp;
      }
      HeldEntered(calls, frames, conds, pendingByPrio, t, Call(c, false, timed, deleting), prioqueue);
      calls := calls[t := Call(c, false, timed, deleting)];
      frames := frames[t := prioqueue];
      return Parked;
    }

    method Take(t: Thread, c: CondRef, prioqueue: QueueRef, deleting: bool)
      requires Repr() && AtLoop(Abs(), t, c, deleting) && ListOf(conds, pendingByPrio, c, prioqueue)
      requires CanAcquire(Abs(), conds[c].shared)
      modifies this
      ensures Repr() && Abs() == Finish(Drop(Own(old(Abs()), t, old(conds[c].shared)), c), deleting)
    {
      if conds[c].shared {
        shr := shr + {t};
      } else {
        exc := Some(t);
      }
      ghost var s := Abs();
      Cleanup(c, prioqueue);
      if deleting {
        DropKeeps(s, c);
        FinishDelete(t);
      }
    }

    /** The list object of a priority, pushed onto the heap if there is none. */
    method ListFor(priority: int) returns (prioqueue: QueueRef)
      requires Repr()
      modifies this`pending, this`pendingByPrio, this`lists, this`nextList
      ensures Repr() && Abs() == old(Abs())
      ensures priority in pendingByPrio && prioqueue == pendingByPrio[priority]
    {
      hide Heap, Index, Filed, Held;
      if priority in pendingByPrio {
        return pendingByPrio[priority];
      }
      HeldIndexed(calls, frames, conds, pendingByPrio, priority, nextList);
      PushStep(pending, pendingByPrio, lists, conds, nextList, priority);
      prioqueue := nextList;
      var k := Place(pending, priority);
      pending := pending[..k] + [(priority, prioqueue)] + pending[k..];
      pendingByPrio := pendingByPrio[priority := prioqueue];
      lists := lists[prioqueue := []];
      nextList := nextList + 1;
    }

    /** A fresh condition goes to the end of the list of its priority. */
    method Append(shared: bool, priority: int, prioqueue: QueueRef) returns (c: CondRef)
      requires Repr() && Shape(Abs()) && (shared ==> priority !in pendingShared)
      requires priority in pendingByPrio && prioqueue == pendingByPrio[priority]
      modifies this`lists, this`conds, this`nextCond, this`pendingShared
      ensures Repr() && Abs() == Enqueue(old(Abs()), shared, priority)
      ensures c == old(nextCond) && c in conds && ListOf(conds, pendingByPrio, c, prioqueue)
    {
      hide Heap, Index, Filed, Held, Flat, Enqueue, Shape, Queued;
      c := nextCond;
      EnqueueStep(Abs(), pending, pendingByPrio, lists, nextList, frames, shared, priority);
      hide Agree;
      assert shared ==> priority !in pendingShared;
      lists, conds, nextCond, pendingShared :=
        lists[prioqueue := lists[prioqueue] + [c]], conds[c := Cond(priority, shared)], nextCond + 1,
        if shared then pendingShared[priority := c] else pendingShared;
    }

    /** __acquire_unlocked, up to its first wait; with `deleting` the call comes from delete(). */
    method AcquireUnlocked(t: Thread, shared: bool, timeout: Option<real>, priority: int, deleting: bool, expired: bool)
      returns (out: Outcome)
      requires Valid() && t !in calls && (deleting ==> !shared)
      modifies this
      ensures Valid() && (Abs(), out) == Request(old(Abs()), t, shared, timeout, priority, deleting, expired)
    {
      RequestKeeps(Abs(), t, shared, timeout, priority, deleting, expired);
      if deleted {
        return LockError;
      }
      if t in shr || exc == Some(t) {
        return AssertionError;
      }
      var _ := FindFirstPendingQueue();
      if pending == [] && exc.None? && (shared || shr == {}) {
        TakeDirectly(t, shared, deleting);
        return Acquired;
      }
      if timeout.Some? && timeout.value < MIN_TIMEOUT {
        return GaveUp;
      }
      if shared && priority in pendingShared {
        var c, prioqueue := Join(priority);
        out := Turn(t, c, prioqueue, timeout.Some?, deleting, expired);
      } else {
        EnqueueAtLoop(Abs(), t, shared, priority, deleting);
        var prioqueue := ListFor(priority);
        var c := Append(shared, priority, prioqueue);
        out := Turn(t, c, prioqueue, timeout.Some?, deleting, expired);
      }
    }

    method TakeDirectly(t: Thread, shared: bool, deleting: bool)
      requires Valid() && Abs().queue == [] && (deleting ==> !shared)
      modifies this`shr, this`exc, this`deleted, this`calls
      ensures Repr() && Abs() == Finish(Own(old(Abs()), t, shared), deleting)
    {
      if shared {
        shr := shr + {t};
      } else {
        exc := Some(t);
      }
      if deleting {
        FinishDelete(t);
      }
    }

    /** A sharer joins the condition kept for its priority. */
    method Join(priority: int) returns (c: CondRef, prioqueue: QueueRef)
      requires Valid() && priority in pendingShared
      ensures c == pendingShared[priority] && c in conds && ListOf(conds, pendingByPrio, c, prioqueue)
    {
      c := pendingShared[priority];
      ghost var k := FiledAt(pending, pendingByPrio, lists, conds, c);
      prioqueue := pendingByPrio[priority];
      assert conds[c].shared && c in lists[prioqueue];
    }

    /** The thread returns from wait() and runs on until it waits again or leaves the call. */
    method WakeUp(t: Thread, expired: bool) returns (out: Outcome)
      requires Valid() && t in calls && (calls[t].notified || calls[t].timed)
      modifies this
      ensures Valid() && (Abs(), out) == Resume(old(Abs()), t, expired)
    {
      hide Lined, Members, Joinables, Heap, Index, Filed, Callers, Busy, Owners, Awake, NoLostWakeup, DeletionAnnounced;
      ResumeKeeps(Abs(), t, expired);
      ResumeAtLoop(Abs(), t);
      var call, prioqueue := calls[t], frames[t];
      calls, frames := calls - {t}, frames - {t};
      if deleted {
        Cleanup(call.cond, prioqueue);
        return LockError;
      }
      out := Turn(t, call.cond, prioqueue, call.timed, call.deleting, expired);
    }

    method NotifyTopmost()
      requires Repr() && Shape(Abs())
      modifies this`pending, this`pendingByPrio, this`calls, this`pendingShared
      ensures Repr() && Abs() == NotifyTop(old(Abs()))
    {
      hide Lined, Joinables, Index, Filed;
      var first := FindFirstPendingQueue();
      if first.Some? {
        var c := lists[first.value.1][0];
        TopPrio(pending, lists, conds);
        NotifyAll(c);
        if conds[c].shared {
          pendingShared := pendingShared - {first.value.0};
        }
      }
    }

    method Release(t: Thread) returns (out: Outcome)
      requires Valid() && t !in calls
      modifies this
      ensures Valid() && (Abs(), out) == ReleaseStep(old(Abs()), t)
    {
      hide Inv, Shape, NotifyTop, Heap, Index, Filed, Held;
      ReleaseKeeps(Abs(), t);
      if exc != Some(t) && t !in shr {
        return AssertionError;
      }
      OwnersKeepShape(Abs(), None, shr);
      OwnersKeepShape(Abs(), exc, shr - {t});
      var notify := true;
      if exc == Some(t) {
        exc := None;
      } else {
        shr := shr - {t};
        notify := shr == {};
      }
      if notify {
        NotifyTopmost();
      }
      return Returned;
    }

    method Downgrade(t: Thread) returns (out: Outcome)
      requires Valid() && t !in calls
      modifies this
      ensures Valid() && (Abs(), out) == DowngradeStep(old(Abs()), t)
    {
      DowngradeKeeps(Abs(), t);
      if exc != Some(t) && t !in shr {
        return AssertionError;
      }
      if exc == Some(t) {
        exc, shr := None, shr + {t};
        var first := FindFirstPendingQueue();
        if first.Some? {
          TopPrio(pending, lists, conds);
          var priority, prioqueue := first.value.0, first.value.1;
          if priority in pendingShared {
            Promote(priority, prioqueue);
          }
        }
      }
      return Returned;
    }

    /** Puts the joinable condition of the topmost priority on top of the queue and notifies it. */
    method Promote(priority: int, prioqueue: QueueRef)
      requires Repr() && Shape(Abs()) && pending != [] && pending[0] == (priority, prioqueue)
      requires priority in pendingShared
      modifies this`pendingShared, this`lists, this`calls
      ensures Repr()
      ensures var s, c := old(Abs()), old(pendingShared[priority]);
              Abs() == Notify(s.(queue := [c] + Without(s.queue, c), joinable := s.joinable - {priority}), c)
    {
      hide Lined, Heap, Index, Filed;
      var c := pendingShared[priority];
      PromoteStep(pending, pendingByPrio, lists, conds, nextList, c);
      assert conds[c].shared && c in lists[prioqueue];
      pendingShared := pendingShared - {priority};
      if |lists[prioqueue]| > 1 {
        lists := lists[prioqueue := [c] + Without(lists[prioqueue], c)];
      } else {
        Singleton(lists[prioqueue], c);
        assert lists[prioqueue := lists[prioqueue]] == lists;
      }
      NotifyAll(c);
    }

    method Delete(t: Thread, timeout: Option<real>, priority: int, expired: bool) returns (out: Outcome)
      requires Valid() && t !in calls
      modifies this
      ensures Valid() && (Abs(), out) == DeleteStep(old(Abs()), t, timeout, priority, expired)
    {
      DeleteKeeps(Abs(), t, timeout, priority, expired);
      if t in shr {
        return AssertionError;
      }
      if deleted {
        return LockError;
      }
      if exc == Some(t) {
        FinishDelete(t);
        return Acquired;
      }
      out := AcquireUnlocked(t, false, timeout, priority, true, expired);
    }

    /** Any step of any thread. */
    method Perform(e: Event) returns (out: Outcome)
      requires Valid() && Enabled(Abs(), e)
      modifies this
      ensures Valid() && (Abs(), out) == Step(old(Abs()), e)
    {
      match e
      case Acquire(t, shared, timeout, prio, expired) =>
        out := AcquireUnlocked(t, shared, timeout, prio, false, expired);
      case Delete(t, timeout, prio, expired) =>
        out := Delete(t, timeout, prio, expired);
      case Wake(t, expired) =>
        out := WakeUp(t, expired);
      case Release(t) =>
        out := Release(t);
      case Downgrade(t) =>
        out := Downgrade(t);
      case NotifyTopmost =>
        NotifyTopKeeps(Abs());
        NotifyTopmost();
        out := Returned;
    }
  }

  /** Whatever is called on a new lock, in whatever order: each call that is possible when its turn comes is
      made, and the object goes through exactly the run that these events play. */
  method Replay(events: seq<Event>) returns (lock: SharedLock, outs: seq<Outcome>)
    ensures var r := Play(events);
            lock.Valid() && r.Valid() && outs == r.outs && lock.Abs() == r.states[|r.states| - 1]
  {
    hide Step, Inv, Heap, Index, Filed, Held, Sound, Play;
    PlayNothing();
    lock := new SharedLock();
    outs := [];
    for i := 0 to |events|
      invariant var r := Play(events[..i]);
                lock.Valid() && outs == r.outs && lock.Abs() == r.states[|r.states| - 1]
    {
      var e := events[i];
      InvSound(lock.Abs());
      PlayNext(events, i);
      var ready := match e
        case Wake(t, _) => t in lock.calls && (lock.calls[t].notified || lock.calls[t].timed)
        case NotifyTopmost => true
        case _ => e.t !in lock.calls;
      if ready {
        var out := lock.Perform(e);
        outs := outs + [out];
      }
    }
    assert events[..|events|] == events;
    PlayIsRun(events);
  }

  lemma OwnersKeepShape(s: State, exc: Option<Thread>, shr: set<Thread>)
    requires Inv(s)
    ensures Shape(s.(exc := exc, shr := shr)) && Queued(s.(exc := exc, shr := shr))
  {
  }

  lemma InvSound(s: State)
    requires Inv(s)
    ensures Sound(s)
  {
  }

  lemma HeldEntered(calls: map<Thread, Call>, frames: map<Thread, QueueRef>, conds: map<CondRef, Cond>,
                    byPrio: map<int, QueueRef>, t: Thread, call: Call, q: QueueRef)
    requires Held(calls, frames, conds, byPrio) && call.cond in conds && ListOf(conds, byPrio, call.cond, q)
    ensures Held(calls[t := call], frames[t := q], conds, byPrio)
  {
  }

  lemma HeldGrown(calls: map<Thread, Call>, frames: map<Thread, QueueRef>, conds: map<CondRef, Cond>,
                  byPrio: map<int, QueueRef>, c: CondRef, cond: Cond)
    requires Held(calls, frames, conds, byPrio) && c !in conds
    ensures Held(calls, frames, conds[c := cond], byPrio)
  {
  }

  lemma HeldIndexed(calls: map<Thread, Call>, frames: map<Thread, QueueRef>, conds: map<CondRef, Cond>,
                    byPrio: map<int, QueueRef>, prio: int, q: QueueRef)
    requires Held(calls, frames, conds, byPrio) && prio !in byPrio
    ensures Held(calls, frames, conds, byPrio[prio := q])
  {
  }

  lemma HeldShrunk(calls: map<Thread, Call>, frames: map<Thread, QueueRef>, conds: map<CondRef, Cond>,
                   byPrio: map<int, QueueRef>, c: CondRef)
    requires Held(calls, frames, conds, byPrio) && !HasWaiter(calls, c)
    ensures Held(calls, frames, conds - {c}, byPrio)
  {
  }

  lemma PushStep(pending: Entries, byPrio: map<int, QueueRef>, lists: Lists, conds: map<CondRef, Cond>,
                 nextList: QueueRef, prio: int)
    requires Agree(pending, byPrio, lists, conds, nextList) && prio !in byPrio
    ensures var k := Place(pending, prio);
            var pending' := pending[..k] + [(prio, nextList)] + pending[k..];
            && Agree(pending', byPrio[prio := nextList], lists[nextList := []], conds, nextList + 1)
            && Flat(pending', lists[nextList := []]) == Flat(pending, lists)
  {
    PushEmpty(pending, byPrio, lists, conds, prio, nextList);
  }

  lemma IndexedAt(pending: Entries, byPrio: map<int, QueueRef>, prio: int) returns (k: nat)
    requires Index(pending, byPrio) && prio in byPrio
    ensures k < |pending| && pending[k] == (prio, byPrio[prio])
  {
    assert (prio, byPrio[prio]) in pending;
    k :| 0 <= k < |pending| && pending[k] == (prio, byPrio[prio]);
  }

  lemma AppendStep(pending: Entries, byPrio: map<int, QueueRef>, lists: Lists, conds: map<CondRef, Cond>,
                   nextList: QueueRef, prio: int, c: CondRef, shared: bool)
    requires Agree(pending, byPrio, lists, conds, nextList) && prio in byPrio && c !in conds
    requires Lined(Flat(pending, lists), conds)
    ensures byPrio[prio] in lists
    ensures var q, f := byPrio[prio], Flat(pending, lists);
            && Agree(pending, byPrio, lists[q := lists[q] + [c]], conds[c := Cond(prio, shared)], nextList)
            && Flat(pending, lists[q := lists[q] + [c]]) == Inserted(f, conds, c, prio)
  {
    var k := IndexedAt(pending, byPrio, prio);
    hide Lined, Inserted, Flat, Index;
    AppendFlat(pending, lists, conds, k, c);
    AppendFiled(pending, lists, conds, k, c, Cond(prio, shared));
  }

  /** Queueing a fresh condition, in the three structures and in the flat queue. */
  lemma EnqueueStep(s: State, pending: Entries, byPrio: map<int, QueueRef>, lists: Lists, nextList: QueueRef,
                    frames: map<Thread, QueueRef>, shared: bool, prio: int)
    requires Agree(pending, byPrio, lists, s.conds, nextList) && Held(s.calls, frames, s.conds, byPrio)
    requires s.queue == Flat(pending, lists) && Shape(s) && prio in byPrio
    ensures byPrio[prio] in lists && Queued(s)
    ensures var conds := s.conds[s.next := Cond(prio, shared)];
            var lists' := lists[byPrio[prio] := lists[byPrio[prio]] + [s.next]];
            && Agree(pending, byPrio, lists', conds, nextList) && Held(s.calls, frames, conds, byPrio)
            && Heap(pending, lists) && Heap(pending, lists')
            && s.(queue := Flat(pending, lists'), conds := conds, next := s.next + 1,
                  joinable := if shared then s.joinable[prio := s.next] else s.joinable) == Enqueue(s, shared, prio)
  {
    assert s.next !in s.conds && Queued(s);
    hide Lined, Index, Filed, Held, Flat, Inserted;
    AppendStep(pending, byPrio, lists, s.conds, nextList, prio, s.next, shared);
    HeldGrown(s.calls, frames, s.conds, byPrio, s.next, Cond(prio, shared));
  }

  lemma PromoteStep(pending: Entries, byPrio: map<int, QueueRef>, lists: Lists, conds: map<CondRef, Cond>,
                    nextList: QueueRef, c: CondRef)
    requires Agree(pending, byPrio, lists, conds, nextList) && pending != []
    requires Lined(Flat(pending, lists), conds) && c in Flat(pending, lists)
    requires c in conds && conds[c].prio == pending[0].0
    ensures var q := pending[0].1;
            && q in lists && c in lists[q]
            && Agree(pending, byPrio, lists[q := [c] + Without(lists[q], c)], conds, nextList)
            && Flat(pending, lists[q := [c] + Without(lists[q], c)]) == [c] + Without(Flat(pending, lists), c)
  {
    var k := FiledAt(pending, byPrio, lists, conds, c);
    assert k == 0;
    LinedDistinct(Flat(pending, lists), conds);
    ListDistinct(pending, lists, 0);
    PromoteFlat(pending, lists, c);
    PromoteFiled(pending, lists, conds, c);
  }

  lemma Singleton(l: seq<CondRef>, c: CondRef)
    requires c in l && |l| <= 1
    ensures [c] + Without(l, c) == l
  {
  }

  /** The priority shown by the first heap entry is that of the topmost condition. */
  lemma TopPrio(pending: Entries, lists: Lists, conds: map<CondRef, Cond>)
    requires Heap(pending, lists) && Filed(pending, lists, conds) && pending != [] && lists[pending[0].1] != []
    ensures var c := lists[pending[0].1][0];
            Flat(pending, lists) != [] && Flat(pending, lists)[0] == c && c in conds && conds[c].prio == pending[0].0
  {
  }

  lemma ResumeAtLoop(s: State, t: Thread)
    requires Inv(s) && t in s.calls
    ensures var s1 := s.(calls := s.calls - {t});
            Steady(s1, {s.calls[t].cond}) && (!s.deleted ==> AtLoop(s1, t, s.calls[t].cond, s.calls[t].deleting))
  {
    UnparkedKeeps(s.calls, s.conds, t);
  }

  lemma FlatSnoc(pending: Entries, lists: Lists, i: nat)
    requires Heap(pending, lists) && i < |pending|
    ensures Flat(pending[..i + 1], lists) == Flat(pending[..i], lists) + lists[pending[i].1]
  {
    FlatConcat(pending[..i], [pending[i]], lists);
    assert pending[..i + 1] == pending[..i] + [pending[i]];
  }
}
