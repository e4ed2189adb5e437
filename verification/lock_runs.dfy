/** Theorems about whole runs of the shared lock: any threads, any interleaving of the steps,
    any timeouts, any answers of the clock. */
module LockRuns {
  import opened Basics
  import opened LockSpec
  import opened LockInvariants

  /** states[i] --events[i]--> states[i+1], starting from a new lock; outs[i] is what the thread sees. */
  datatype Run = Run(states: seq<State>, events: seq<Event>, outs: seq<Outcome>) {
    ghost predicate StepAt(i: nat)
      requires i < |events| && |states| == |events| + 1 && |outs| == |events|
    {
      Sound(states[i]) && Enabled(states[i], events[i]) && Step(states[i], events[i]) == (states[i + 1], outs[i])
    }

    ghost predicate Valid() {
      && |states| == |events| + 1 && |outs| == |events|
      && states[0] == Init()
      && forall i: nat | i < |events| :: StepAt(i)
    }
  }

  lemma {:induction false} RunInv(r: Run, i: nat)
    requires r.Valid() && i < |r.states|
    ensures Inv(r.states[i])
    decreases i
  {
    if i == 0 {
      InitInv();
    } else {
      RunInv(r, i - 1);
      assert r.StepAt(i - 1);
      StepKeeps(r.states[i - 1], r.events[i - 1]);
    }
  }

  // ----- no lost wakeup, and the lock never gets stuck -----

  /** On a free lock with queued requests somebody waits on the topmost condition, everybody who
      does can wake up, and whoever wakes up first gets the lock. */
  ghost predicate CanProceed(s: State)
    requires s.queue != [] && Sound(s)
  {
    && (exists t <- s.calls :: s.calls[t].cond == s.queue[0])
    && forall t, expired | t in s.calls && s.calls[t].cond == s.queue[0] ::
         Enabled(s, Wake(t, expired)) && WinsLock(s, t, expired)
  }

  ghost predicate WinsLock(s: State, t: Thread, expired: bool)
    requires t in s.calls && s.calls[t].cond in s.conds
  {
    var (s', out) := Resume(s, t, expired);
    out == Acquired && if s.calls[t].deleting then s'.deleted else Owns(s', t)
  }

  lemma TopWins(s: State, t: Thread, expired: bool)
    requires Inv(s) && !s.deleted && Free(s) && t in s.calls && OnTop(s, s.calls[t].cond)
    ensures s.calls[t].notified && WinsLock(s, t, expired)
  {
  }

  /** Whenever the lock is free, not deleted and has pending requests, every thread on the topmost
      condition has its notification, so the lock is handed on. */
  lemma NoLostWakeupInRuns(r: Run, i: nat)
    requires r.Valid() && i < |r.states|
    requires Free(r.states[i]) && !r.states[i].deleted && r.states[i].queue != []
    ensures Sound(r.states[i]) && Awake(r.states[i].calls, r.states[i].queue[0])
    ensures CanProceed(r.states[i])
  {
    RunInv(r, i);
    var s := r.states[i];
    assert HasWaiter(s.calls, s.queue[0]);
    forall t, expired | t in s.calls && s.calls[t].cond == s.queue[0]
      ensures Enabled(s, Wake(t, expired)) && WinsLock(s, t, expired)
    {
      TopWins(s, t, expired);
    }
  }

  // ----- mutual exclusion and deletion -----

  lemma MutualExclusion(r: Run, i: nat, t: Thread, u: Thread)
    requires r.Valid() && i < |r.states|
    requires r.states[i].exc == Some(t) && Owns(r.states[i], u)
    ensures t == u && u !in r.states[i].shr
  {
    RunInv(r, i);
  }

  /** What happens to a deleted lock: waiters leave with an error and nobody starts to wait. */
  ghost predicate WindsDown(s: State, e: Event, s': State, out: Outcome) {
    && s'.deleted
    && s'.calls.Keys <= s.calls.Keys
    && (e.Wake? ==> e.t !in s'.calls)
    && (e.Wake? || e.Acquire? || e.Delete? ==> out == LockError)
  }

  lemma DeletedStep(s: State, e: Event)
    requires Inv(s) && Enabled(s, e) && s.deleted
    ensures WindsDown(s, e, Step(s, e).0, Step(s, e).1)
  {
  }

  lemma DeletedStepInRuns(r: Run, i: nat)
    requires r.Valid() && i < |r.events| && r.states[i].deleted
    ensures WindsDown(r.states[i], r.events[i], r.states[i + 1], r.outs[i])
  {
    RunInv(r, i);
    assert r.StepAt(i);
    DeletedStep(r.states[i], r.events[i]);
  }

  /** A deleted lock stays deleted and never has an owner again; every request that was waiting has
      its notification and can only end in an error; nobody starts to wait. */
  lemma {:induction false} DeletionIsFinal(r: Run, i: nat, j: nat)
    requires r.Valid() && i <= j < |r.states| && r.states[i].deleted
    ensures r.states[j].deleted && Free(r.states[j])
    ensures r.states[j].calls.Keys <= r.states[i].calls.Keys
    ensures forall t <- r.states[j].calls :: r.states[j].calls[t].notified
    ensures j < |r.events| ==> WindsDown(r.states[j], r.events[j], r.states[j + 1], r.outs[j])
    decreases j
  {
    RunInv(r, j);
    if i < j {
      DeletionIsFinal(r, i, j - 1);
    }
    if j < |r.events| {
      DeletedStepInRuns(r, j);
    }
  }

  lemma NothingJoinable(joinable: map<int, CondRef>)
    requires Joinables(joinable, map[])
    ensures joinable == map[]
  {
    assert forall p :: p !in joinable;
  }

  /** Once nobody waits any more, no condition is left behind in any pending structure. */
  lemma NothingLeftBehind(r: Run, i: nat)
    requires r.Valid() && i < |r.states|
    ensures r.states[i].calls == map[] <==> r.states[i].queue == []
    ensures r.states[i].queue == [] ==> r.states[i].conds == map[] && r.states[i].joinable == map[]
  {
    RunInv(r, i);
    var s := r.states[i];
    if s.queue != [] {
      assert HasWaiter(s.calls, s.queue[0]);
    } else {
      assert s.conds == map[];
      NothingJoinable(s.joinable);
    }
  }

  // ----- no overtaking -----

  /** A condition that is still queued is unchanged; one that left never comes back. */
  ghost predicate Persists(s: State, s': State, c: CondRef) {
    && s.next <= s'.next
    && (c in s'.conds ==> c in s.conds && s'.conds[c] == s.conds[c])
  }

  lemma StableSettle(s: State, t: Thread, c: CondRef, timed: bool, deleting: bool, expired: bool, d: CondRef)
    requires c in s.conds
    ensures Persists(s, Settle(s, t, c, timed, deleting, expired).0, d)
  {
  }

  lemma StableRequest(s: State, t: Thread, shared: bool, timeout: Option<real>, prio: int,
                      deleting: bool, expired: bool, d: CondRef)
    requires Sound(s) && d < s.next
    ensures Persists(s, Request(s, t, shared, timeout, prio, deleting, expired).0, d)
  {
    hide Settle;
    if shared && prio in s.joinable {
      StableSettle(s, t, s.joinable[prio], timeout.Some?, deleting, expired, d);
    } else {
      StableSettle(Enqueue(s, shared, prio), t, s.next, timeout.Some?, deleting, expired, d);
    }
  }

  lemma StableStep(s: State, e: Event, d: CondRef)
    requires Sound(s) && Enabled(s, e) && d < s.next
    ensures Persists(s, Step(s, e).0, d)
  {
    match e
    case Acquire(t, shared, timeout, prio, expired) => StableRequest(s, t, shared, timeout, prio, false, expired, d);
    case Delete(t, timeout, prio, expired) => StableRequest(s, t, false, timeout, prio, true, expired, d);
    case Wake(t, expired) =>
      var call := s.calls[t];
      StableSettle(s.(calls := s.calls - {t}), t, call.cond, call.timed, call.deleting, expired, d);
    case _ =>
  }

  lemma StableStepInRuns(r: Run, i: nat, d: CondRef)
    requires r.Valid() && i < |r.events| && d < r.states[i].next
    ensures Persists(r.states[i], r.states[i + 1], d)
  {
    assert r.StepAt(i);
    StableStep(r.states[i], r.events[i], d);
  }

  lemma {:induction false} StableInRuns(r: Run, i: nat, j: nat, c: CondRef)
    requires r.Valid() && i <= j < |r.states| && c < r.states[i].next
    ensures Persists(r.states[i], r.states[j], c)
    decreases j
  {
    if i < j {
      StableInRuns(r, i, j - 1, c);
      StableStepInRuns(r, j - 1, c);
    }
  }

  /** The arrival number and priority under which an event asks for the lock exclusively. */
  ghost predicate AsksExclusively(s: State, e: Event, number: CondRef, prio: int) {
    match e
    case Acquire(t, shared, _, p, _) => !shared && number == s.next && prio == p
    case Delete(t, _, p, _) => s.exc != Some(t) && number == s.next && prio == p
    case Wake(t, _) =>
      t in s.calls && s.calls[t].cond in s.conds && number == s.calls[t].cond && s.conds[number] == Cond(prio, false)
    case _ => false
  }

  lemma WinnerIsFirst(s: State, e: Event, number: CondRef, prio: int, c: CondRef)
    requires Inv(s) && Enabled(s, e) && AsksExclusively(s, e, number, prio) && Step(s, e).1 == Acquired
    requires c in s.conds && c != number && !s.conds[c].shared
    ensures prio < s.conds[c].prio || (prio == s.conds[c].prio && number < c)
  {
    var k := QueuedAt(s, c);
    InvIsSound(s);
    hide Inv, Request, Resume, Sound;
    match e
    case Acquire(t, shared, timeout, p, expired) =>
      ArrivalWins(s, t, timeout, p, false, expired);
      ArrivalOnTop(s, prio, k);
    case Delete(t, timeout, p, expired) =>
      ArrivalWins(s, t, timeout, p, true, expired);
      ArrivalOnTop(s, prio, k);
    case Wake(t, expired) =>
      WinnerOnTop(s, t, expired);
      FirstIsBefore(s, k);
  }

  lemma InvIsSound(s: State)
    requires Inv(s)
    ensures Sound(s) && Queued(s) && forall p <- s.joinable :: s.joinable[p] in s.conds
  {
  }

  /** A new exclusive request that gets the lock at once goes to the front of the queue. */
  lemma ArrivalWins(s: State, t: Thread, timeout: Option<real>, prio: int, deleting: bool, expired: bool)
    requires Inv(s) && Queued(s) && (forall p <- s.joinable :: s.joinable[p] in s.conds)
    requires Request(s, t, false, timeout, prio, deleting, expired).1 == Acquired
    ensures Slot(s.queue, s.conds, prio) == 0
  {
    hide Drop, Finish, Own;
    assert s.next !in s.queue;
  }

  lemma QueuedAt(s: State, c: CondRef) returns (k: nat)
    requires Inv(s) && c in s.conds
    ensures k < |s.queue| && s.queue[k] == c
  {
    k :| 0 <= k < |s.queue| && s.queue[k] == c;
  }

  /** Whoever gets the lock after a wait stands on top of the queue. */
  lemma WinnerOnTop(s: State, t: Thread, expired: bool)
    requires t in s.calls && s.calls[t].cond in s.conds && Resume(s, t, expired).1 == Acquired
    ensures OnTop(s, s.calls[t].cond)
  {
    hide Drop, Finish, Own;
  }

  lemma FirstIsBefore(s: State, k: nat)
    requires Inv(s) && k < |s.queue| && s.queue[k] != s.queue[0]
    ensures s.queue[0] in s.conds && s.queue[k] in s.conds && Before(s.conds, s.queue[0], s.queue[k])
  {
  }

  /** A new request that stands on top at once is strictly more urgent than everything queued. */
  lemma ArrivalOnTop(s: State, prio: int, k: nat)
    requires Inv(s) && k < |s.queue| && Slot(s.queue, s.conds, prio) == 0
    ensures prio < s.conds[s.queue[k]].prio
  {
  }

  /** An exclusive request queued at some point of a run has left the queue before any exclusive
      request that arrived later, at the same or a numerically larger priority, gets the lock. */
  lemma NoOvertaking(r: Run, i: nat, k: nat, c: CondRef, number: CondRef, prio: int)
    requires r.Valid() && i <= k < |r.events|
    requires c in r.states[i].conds && !r.states[i].conds[c].shared
    requires AsksExclusively(r.states[k], r.events[k], number, prio) && r.outs[k] == Acquired
    requires c < number && r.states[i].conds[c].prio <= prio
    ensures forall j | k <= j < |r.states| :: c !in r.states[j].conds && !HasWaiter(r.states[j].calls, c)
  {
    RunInv(r, i);
    RunInv(r, k);
    StableInRuns(r, i, k, c);
    assert r.StepAt(k);
    if c in r.states[k].conds {
      WinnerIsFirst(r.states[k], r.events[k], number, prio, c);
      assert false;
    }
    forall j | k <= j < |r.states| ensures c !in r.states[j].conds && !HasWaiter(r.states[j].calls, c) {
      StableInRuns(r, k, j, c);
      RunInv(r, j);
    }
  }

  lemma NoBarging(s: State, e: Event)
    requires Inv(s) && Enabled(s, e) && e.Acquire? && Step(s, e).1 == Acquired
    requires !(e.shared && e.prio in s.joinable)
    ensures forall c <- s.conds :: e.prio < s.conds[c].prio
  {
  }

  /** An acquire() that does not wait succeeds while requests are queued only if it is strictly more
      urgent than all of them, or joins the shared condition that is already on top. */
  lemma NoBargingIn(r: Run, k: nat)
    requires r.Valid() && k < |r.events| && r.events[k].Acquire? && r.outs[k] == Acquired
    ensures var s, prio := r.states[k], r.events[k].prio;
            || (forall c <- s.conds :: prio < s.conds[c].prio)
            || (r.events[k].shared && prio in s.joinable && OnTop(s, s.joinable[prio]))
  {
    RunInv(r, k);
    assert r.StepAt(k);
    if !(r.events[k].shared && r.events[k].prio in r.states[k].joinable) {
      NoBarging(r.states[k], r.events[k]);
    }
  }

  /** Nothing that is queued comes before the request: it is strictly more urgent than everything queued,
      or joins the shared condition on top. */
  ghost predicate GoesFirst(s: State, shared: bool, prio: int) {
    if shared && prio in s.joinable then OnTop(s, s.joinable[prio]) else forall c <- s.conds :: prio < s.conds[c].prio
  }

  lemma SlotFirst(s: State, prio: int)
    requires Inv(s) && Queued(s)
    ensures Slot(s.queue, s.conds, prio) == 0 <==> forall c <- s.conds :: prio < s.conds[c].prio
  {
    if s.queue != [] && prio < s.conds[s.queue[0]].prio {
      forall c <- s.conds ensures prio < s.conds[c].prio {
        var k := QueuedAt(s, c);
        assert k > 0 ==> Before(s.conds, s.queue[0], s.queue[k]);
      }
    } else if s.queue != [] {
      assert s.queue[0] in s.conds;
    } else {
      assert forall c :: c !in s.conds;
    }
  }

  lemma FreshOnTop(s: State, shared: bool, prio: int)
    requires Inv(s) && Queued(s)
    ensures OnTop(Enqueue(s, shared, prio), s.next) <==> Slot(s.queue, s.conds, prio) == 0
  {
    assert s.next !in s.queue;
  }

  lemma SettleExactly(s: State, t: Thread, c: CondRef, timed: bool, deleting: bool, expired: bool)
    requires c in s.conds
    ensures Settle(s, t, c, timed, deleting, expired).1 == Acquired <==> OnTop(s, c) && CanAcquire(s, s.conds[c].shared)
  {
    hide Drop, Finish, Own;
  }

  lemma RequestExactly(s: State, t: Thread, shared: bool, timeout: Option<real>, prio: int, deleting: bool, expired: bool)
    requires Inv(s) && Sound(s)
    ensures Request(s, t, shared, timeout, prio, deleting, expired).1 == Acquired <==>
            && !s.deleted && !Owns(s, t) && CanAcquire(s, shared)
            && (s.queue == [] || (GoesFirst(s, shared, prio) && !(timeout.Some? && timeout.value < MIN_TIMEOUT)))
  {
    SlotFirst(s, prio);
    FreshOnTop(s, shared, prio);
    assert shared && prio in s.joinable ==> s.conds[s.joinable[prio]].shared;
    if shared && prio in s.joinable {
      SettleExactly(s, t, s.joinable[prio], timeout.Some?, deleting, expired);
    } else {
      SettleExactly(Enqueue(s, shared, prio), t, s.next, timeout.Some?, deleting, expired);
    }
    hide Inv, Settle, Inserted, Slot;
  }

  /** An acquire() succeeds at once exactly when nobody owns the lock in its way and nothing queued comes
      before it; with requests queued it also needs a timeout worth waiting for. A woken call succeeds exactly
      when it stands on top and nobody owns the lock in its way. */
  lemma SucceedsExactly(r: Run, k: nat)
    requires r.Valid() && k < |r.events|
    ensures var s, e := r.states[k], r.events[k];
            && (e.Acquire? ==>
                  (r.outs[k] == Acquired <==>
                     && !s.deleted && !Owns(s, e.t) && CanAcquire(s, e.shared)
                     && (s.queue == [] || (GoesFirst(s, e.shared, e.prio) &&
                                           !(e.timeout.Some? && e.timeout.value < MIN_TIMEOUT)))))
            && (e.Wake? ==>
                  && e.t in s.calls && s.calls[e.t].cond in s.conds
                  && var c := s.calls[e.t].cond;
                     r.outs[k] == Acquired <==> !s.deleted && OnTop(s, c) && CanAcquire(s, s.conds[c].shared))
  {
    RunInv(r, k);
    assert r.StepAt(k);
    var s, e := r.states[k], r.events[k];
    if e.Acquire? {
      RequestExactly(s, e.t, e.shared, e.timeout, e.prio, false, e.expired);
    } else if e.Wake? {
      var call := s.calls[e.t];
      SettleExactly(s.(calls := s.calls - {e.t}), e.t, call.cond, call.timed, call.deleting, e.expired);
    }
    hide Inv, Request, Settle, Drop;
  }

  // ----- who can join -----

  /** Nobody can join a condition any more once one of its waiters was notified. */
  ghost predicate Closed(s: State) {
    forall u, p | u in s.calls && p in s.joinable && s.calls[u].notified && !s.deleted :: s.joinable[p] != s.calls[u].cond
  }

  lemma NotifyTopCloses(s: State)
    requires Queued(s) && Joinables(s.joinable, s.conds) && Closed(s)
    ensures Closed(NotifyTop(s))
  {
  }

  lemma SettleCloses(s: State, t: Thread, c: CondRef, timed: bool, deleting: bool, expired: bool)
    requires c in s.conds && Closed(s)
    ensures Closed(Settle(s, t, c, timed, deleting, expired).0)
  {
  }

  lemma RequestCloses(s: State, t: Thread, shared: bool, timeout: Option<real>, prio: int, deleting: bool, expired: bool)
    requires Inv(s) && Sound(s) && Closed(s)
    ensures Closed(Request(s, t, shared, timeout, prio, deleting, expired).0)
  {
    assert s.next !in s.conds;
    hide Inv, Settle, Inserted;
    if shared && prio in s.joinable {
      SettleCloses(s, t, s.joinable[prio], timeout.Some?, deleting, expired);
    } else {
      SettleCloses(Enqueue(s, shared, prio), t, s.next, timeout.Some?, deleting, expired);
    }
  }

  lemma ResumeCloses(s: State, t: Thread, expired: bool)
    requires Sound(s) && t in s.calls && Closed(s)
    ensures Closed(Resume(s, t, expired).0)
  {
    hide Settle;
    var call := s.calls[t];
    SettleCloses(s.(calls := s.calls - {t}), t, call.cond, call.timed, call.deleting, expired);
  }

  lemma ReleaseCloses(s: State, t: Thread)
    requires Queued(s) && Joinables(s.joinable, s.conds) && Closed(s)
    ensures Closed(ReleaseStep(s, t).0)
  {
    NotifyTopCloses(s.(exc := None));
    NotifyTopCloses(s.(shr := s.shr - {t}));
    hide NotifyTop;
  }

  lemma DowngradeCloses(s: State, t: Thread)
    requires Queued(s) && Joinables(s.joinable, s.conds) && Closed(s)
    ensures Closed(DowngradeStep(s, t).0)
  {
    hide Without;
  }

  lemma DeletedIsClosed(s: State)
    ensures Closed(MarkDeleted(s))
  {
  }

  lemma StepCloses(s: State, e: Event)
    requires Inv(s) && Sound(s) && Enabled(s, e) && Closed(s)
    ensures Closed(Step(s, e).0)
  {
    assert Queued(s) && Joinables(s.joinable, s.conds);
    hide Inv, Request, Resume, ReleaseStep, DowngradeStep, NotifyTop, MarkDeleted, Closed, Joinables;
    match e
    case Acquire(t, shared, timeout, prio, expired) => RequestCloses(s, t, shared, timeout, prio, false, expired);
    case Delete(t, timeout, prio, expired) =>
      RequestCloses(s, t, false, timeout, prio, true, expired);
      DeletedIsClosed(s);
    case Wake(t, expired) => ResumeCloses(s, t, expired);
    case Release(t) => ReleaseCloses(s, t);
    case Downgrade(t) => DowngradeCloses(s, t);
    case NotifyTopmost => NotifyTopCloses(s);
  }

  lemma {:induction false} ClosedInRuns(r: Run, i: nat)
    requires r.Valid() && i < |r.states|
    ensures Closed(r.states[i])
    decreases i
  {
    if i > 0 {
      ClosedInRuns(r, i - 1);
      RunInv(r, i - 1);
      assert r.StepAt(i - 1);
      StepCloses(r.states[i - 1], r.events[i - 1]);
    }
  }

  /** While the lock is free and being handed on, no shared request sneaks in with those that were woken: an
      acquire() succeeds only if it is strictly more urgent than everything queued. */
  lemma NoSneakingIn(r: Run, k: nat)
    requires r.Valid() && k < |r.events| && r.events[k].Acquire? && r.outs[k] == Acquired && Free(r.states[k])
    ensures forall c <- r.states[k].conds :: r.events[k].prio < r.states[k].conds[c].prio
  {
    SucceedsExactly(r, k);
    NothingLeftBehind(r, k);
    ClosedInRuns(r, k);
    if r.states[k].queue != [] {
      NoLostWakeupInRuns(r, k);
    }
  }

  // ----- sharers -----

  /** A shared request that has to wait does so on the one condition that sharers of its priority can join. */
  lemma SharersMeet(r: Run, k: nat)
    requires r.Valid() && k < |r.events| && r.events[k].Acquire? && r.events[k].shared && r.outs[k] == Parked
    ensures var s', e := r.states[k + 1], r.events[k];
            e.t in s'.calls && e.prio in s'.joinable && s'.joinable[e.prio] == s'.calls[e.t].cond
  {
    assert r.StepAt(k);
    var s, e := r.states[k], r.events[k];
    if e.prio in s.joinable {
      SettleParks(s, e.t, s.joinable[e.prio], e.timeout.Some?, e.expired);
    } else {
      SettleParks(Enqueue(s, true, e.prio), e.t, s.next, e.timeout.Some?, e.expired);
    }
    hide Settle, Inserted;
  }

  lemma SettleParks(s: State, t: Thread, c: CondRef, timed: bool, expired: bool)
    requires c in s.conds
    ensures Settle(s, t, c, timed, false, expired).1 == Parked ==>
              Settle(s, t, c, timed, false, expired).0 == s.(calls := s.calls[t := Call(c, false, timed, false)])
  {
    hide Drop, Finish, Own;
  }

  /** The thread can wake up and gets the lock when it does. */
  ghost predicate GoesAhead(s: State, u: Thread) {
    && u in s.calls && s.calls[u].cond in s.conds
    && forall expired :: Enabled(s, Wake(u, expired)) && Resume(s, u, expired).1 == Acquired
  }

  /** The thread waits for a shared lock at the topmost priority. */
  ghost predicate SharesTop(s: State, u: Thread) {
    && s.queue != [] && s.queue[0] in s.conds && u in s.calls && s.calls[u].cond in s.conds
    && s.conds[s.calls[u].cond] == Cond(s.conds[s.queue[0]].prio, true)
  }

  /** It waits on the condition that sharers of that priority can join, or there is none, it stands on top
      already, and its wait can end. */
  ghost predicate Favoured(s: State, u: Thread)
    requires SharesTop(s, u)
  {
    var prio, call := s.conds[s.queue[0]].prio, s.calls[u];
    if prio in s.joinable then call.cond == s.joinable[prio] else call.cond == s.queue[0] && (call.notified || call.timed)
  }

  lemma DowngradedWaiter(s: State, t: Thread, u: Thread)
    requires Inv(s) && Sound(s) && s.exc == Some(t) && SharesTop(s, u)
    ensures var s', c := DowngradeStep(s, t).0, s.calls[u].cond;
            && s'.exc.None? && !s'.deleted && s'.conds == s.conds && u in s'.calls
            && s'.calls[u] == s.calls[u].(notified := s'.calls[u].notified)
            && (OnTop(s', c) && (s'.calls[u].notified || s'.calls[u].timed) <==> Favoured(s, u))
  {
    hide Without;
  }

  lemma WinsExactly(s: State, u: Thread)
    requires Sound(s) && s.exc.None? && !s.deleted && u in s.calls && s.conds[s.calls[u].cond].shared
    ensures GoesAhead(s, u) <==> OnTop(s, s.calls[u].cond) && (s.calls[u].notified || s.calls[u].timed)
  {
    var call := s.calls[u];
    SettleExactly(s.(calls := s.calls - {u}), u, call.cond, call.timed, call.deleting, false);
    SettleExactly(s.(calls := s.calls - {u}), u, call.cond, call.timed, call.deleting, true);
    hide Settle;
    assert GoesAhead(s, u) ==> Enabled(s, Wake(u, false));
  }

  /** When an exclusive owner downgrades, of those who wait to share the lock at the topmost priority exactly
      the favoured ones go ahead. */
  lemma DowngradeLetsSharersIn(r: Run, k: nat, t: Thread, u: Thread)
    requires r.Valid() && k < |r.events| && r.events[k] == Downgrade(t) && r.states[k].exc == Some(t)
    requires SharesTop(r.states[k], u)
    ensures GoesAhead(r.states[k + 1], u) <==> Favoured(r.states[k], u)
  {
    RunInv(r, k);
    RunInv(r, k + 1);
    InvIsSound(r.states[k + 1]);
    assert r.StepAt(k);
    DowngradedWaiter(r.states[k], t, u);
    hide Inv, DowngradeStep;
    WinsExactly(r.states[k + 1], u);
  }

  // ----- blocking calls -----

  /** The thread's frame, if it has one before and after, is that of the same kind of call. */
  ghost predicate SameKind(calls: map<Thread, Call>, calls': map<Thread, Call>, u: Thread) {
    u in calls && u in calls' ==> calls'[u].timed == calls[u].timed
  }

  lemma KindSettle(s: State, t: Thread, c: CondRef, timed: bool, deleting: bool, expired: bool, u: Thread)
    requires c in s.conds
    ensures u != t ==> SameKind(s.calls, Settle(s, t, c, timed, deleting, expired).0.calls, u)
    ensures var (s', out) := Settle(s, t, c, timed, deleting, expired);
            && (t !in s.calls && t in s'.calls ==> s'.calls[t].timed == timed)
            && (out == Parked ==> t in s'.calls)
            && (out == GaveUp ==> timed && expired)
  {
  }

  lemma KindRequest(s: State, t: Thread, shared: bool, timeout: Option<real>, prio: int,
                    deleting: bool, expired: bool, u: Thread)
    requires Sound(s) && t !in s.calls
    ensures u != t ==> SameKind(s.calls, Request(s, t, shared, timeout, prio, deleting, expired).0.calls, u)
    ensures var (s', out) := Request(s, t, shared, timeout, prio, deleting, expired);
            && (t in s'.calls ==> s'.calls[t].timed == timeout.Some?)
            && (out == GaveUp ==> timeout.Some?)
  {
    hide Settle;
    if shared && prio in s.joinable {
      KindSettle(s, t, s.joinable[prio], timeout.Some?, deleting, expired, u);
    } else {
      KindSettle(Enqueue(s, shared, prio), t, s.next, timeout.Some?, deleting, expired, u);
    }
  }

  lemma KindStep(s: State, e: Event, u: Thread)
    requires Sound(s) && Enabled(s, e) && u in s.calls
    ensures SameKind(s.calls, Step(s, e).0.calls, u)
    ensures e.Wake? && e.t == u && Step(s, e).1 == GaveUp ==> s.calls[u].timed && e.expired
  {
    hide Request, Settle, ReleaseStep, DowngradeStep, NotifyTop;
    match e
    case Acquire(t, shared, timeout, prio, expired) => KindRequest(s, t, shared, timeout, prio, false, expired, u);
    case Delete(t, timeout, prio, expired) => KindRequest(s, t, false, timeout, prio, true, expired, u);
    case Wake(t, expired) =>
      var call := s.calls[t];
      KindSettle(s.(calls := s.calls - {t}), t, call.cond, call.timed, call.deleting, expired, u);
    case Release(t) => KindRelease(s, t, u);
    case Downgrade(t) => KindDowngrade(s, t, u);
    case NotifyTopmost => KindNotify(s, u);
  }

  lemma KindNotify(s: State, u: Thread)
    requires Queued(s)
    ensures SameKind(s.calls, NotifyTop(s).calls, u)
  {
  }

  lemma KindRelease(s: State, t: Thread, u: Thread)
    requires Queued(s)
    ensures SameKind(s.calls, ReleaseStep(s, t).0.calls, u)
  {
    hide NotifyTop;
    KindNotify(s.(exc := None), u);
    KindNotify(s.(shr := s.shr - {t}), u);
  }

  lemma KindDowngrade(s: State, t: Thread, u: Thread)
    requires Queued(s)
    ensures SameKind(s.calls, DowngradeStep(s, t).0.calls, u)
  {
    hide Without;
  }

  /** acquire() or delete() without a timeout. */
  predicate BlockingCall(e: Event, t: Thread) {
    (e.Acquire? || e.Delete?) && e.t == t && e.timeout.None?
  }

  /** The thread is inside the call that it made in step i. */
  ghost predicate StillWaits(r: Run, i: nat, k: nat, t: Thread) {
    i < k < |r.states| && forall m | i < m <= k :: t in r.states[m].calls
  }

  lemma {:induction false} StaysUntimed(r: Run, i: nat, k: nat, t: Thread)
    requires r.Valid() && i < |r.events| && BlockingCall(r.events[i], t) && StillWaits(r, i, k, t)
    ensures !r.states[k].calls[t].timed
    decreases k
  {
    hide Step, Sound, Enabled;
    assert r.StepAt(k - 1);
    if k == i + 1 {
      CallBegins(r.states[i], r.events[i], t);
    } else {
      StaysUntimed(r, i, k - 1, t);
      KindStep(r.states[k - 1], r.events[k - 1], t);
    }
  }

  lemma CallBegins(s: State, e: Event, t: Thread)
    requires Sound(s) && Enabled(s, e) && BlockingCall(e, t)
    ensures Step(s, e).1 != GaveUp
    ensures t in Step(s, e).0.calls ==> !Step(s, e).0.calls[t].timed
  {
    match e
    case Acquire(_, shared, timeout, prio, expired) => KindRequest(s, t, shared, timeout, prio, false, expired, t);
    case Delete(_, timeout, prio, expired) => KindRequest(s, t, false, timeout, prio, true, expired, t);
  }

  /** In every run a call without a timeout never comes back empty-handed: not at once, and not from any of
      its waits. */
  lemma BlockingNeverGivesUp(r: Run, i: nat, k: nat, t: Thread)
    requires r.Valid() && i <= k < |r.events| && BlockingCall(r.events[i], t)
    requires k == i || (StillWaits(r, i, k, t) && r.events[k].Wake? && r.events[k].t == t)
    ensures r.outs[k] != GaveUp
  {
    hide Step, Sound, Enabled;
    assert r.StepAt(k);
    if k == i {
      CallBegins(r.states[i], r.events[i], t);
    } else {
      StaysUntimed(r, i, k, t);
      KindStep(r.states[k], r.events[k], t);
    }
  }

  // ----- playing events -----

  /** The run that some events make on a new lock: those that are enabled when their turn comes, in order. */
  ghost function Play(events: seq<Event>): (r: Run)
    ensures r.states != []
  {
    if events == [] then Run([Init()], [], [])
    else
      var r, e := Play(events[..|events| - 1]), events[|events| - 1];
      var s := r.states[|r.states| - 1];
      if Sound(s) && Enabled(s, e) then
        Run(r.states + [Step(s, e).0], r.events + [e], r.outs + [Step(s, e).1])
      else r
  }

  lemma PlayNothing()
    ensures Play([]) == Run([Init()], [], [])
  {
  }

  lemma PlayNext(events: seq<Event>, i: nat)
    requires i < |events| && Sound(Play(events[..i]).states[|Play(events[..i]).states| - 1])
    ensures var r, e := Play(events[..i]), events[i];
            var s := r.states[|r.states| - 1];
            Play(events[..i + 1]) ==
            if Enabled(s, e) then Run(r.states + [Step(s, e).0], r.events + [e], r.outs + [Step(s, e).1]) else r
  {
    hide Step, Sound, Enabled;
    assert events[..i + 1][..i] == events[..i];
  }

  lemma {:induction false} PlayIsRun(events: seq<Event>)
    ensures Play(events).Valid()
  {
    hide Step, Sound, Enabled;
    if events != [] {
      var r, r' := Play(events[..|events| - 1]), Play(events);
      PlayIsRun(events[..|events| - 1]);
      forall i: nat | i < |r'.events| ensures r'.StepAt(i) {
        assert i < |r.events| ==> r.StepAt(i);
      }
    }
  }

  // ----- a sharer that downgrade() leaves behind -----

  /** Thread 1 waits to share the lock, on condition 0; who owns it, whether the condition can be joined,
      whether thread 1 was notified, and how many conditions there have been. */
  function OneWaits(owner: Option<Thread>, joinable: bool, notified: bool, next: CondRef): (s: State) {
    State(false, owner, {}, [0], map[0 := Cond(0, true)], if joinable then map[0 := 0] else map[],
          map[1 := Call(0, notified, false, false)], next)
  }

  const ALONE := Acquire(0, false, None, 0, false)
  const SHARING := Acquire(1, true, None, 0, false)
  const URGENT := Acquire(2, false, None, -1, false)

  /** One step of a run. */
  ghost predicate Leads(s: State, e: Event, s': State, out: Outcome) {
    Sound(s) && Enabled(s, e) && Step(s, e) == (s', out)
  }

  lemma TakenAlone()
    ensures Leads(Init(), ALONE, Init().(exc := Some(0)), Acquired)
  {
    hide Settle, Enqueue, ReleaseStep, DowngradeStep, NotifyTop, Resume, DeleteStep;
  }

  lemma FirstQueued()
    ensures Enqueue(Init().(exc := Some(0)), true, 0) == OneWaits(Some(0), true, false, 1).(calls := map[])
  {
    var s := Init().(exc := Some(0));
    assert Inserted(s.queue, s.conds, 0, 0) == [0];
    assert s.conds[0 := Cond(0, true)] == map[0 := Cond(0, true)] && s.joinable[0 := 0] == map[0 := 0];
  }

  lemma SharerWaits()
    ensures Leads(Init().(exc := Some(0)), SHARING, OneWaits(Some(0), true, false, 1), Parked)
  {
    FirstQueued();
    hide ReleaseStep, DowngradeStep, NotifyTop, Resume, DeleteStep, Drop, Finish, Enqueue, Own;
    var s1 := OneWaits(Some(0), true, false, 1).(calls := map[]);
    assert Settle(s1, 1, 0, false, false, false) == (OneWaits(Some(0), true, false, 1), Parked);
  }

  lemma SharerIsNotified()
    ensures Leads(OneWaits(Some(0), true, false, 1), Release(0), OneWaits(None, false, true, 1), Returned)
  {
    hide Request, DowngradeStep, Resume, DeleteStep;
    var s, s1 := OneWaits(Some(0), true, false, 1), OneWaits(None, false, true, 1);
    assert Notified(s.calls, 0) == s1.calls && s.joinable - {0} == map[];
  }

  /** A more urgent request arrives and gets the lock before thread 1 does. */
  lemma UrgentOvertakes()
    ensures Leads(OneWaits(None, false, true, 1), URGENT, OneWaits(Some(2), false, true, 2), Acquired)
  {
    hide ReleaseStep, DowngradeStep, NotifyTop, Resume, DeleteStep;
    var s1, s2 := OneWaits(None, false, true, 1), OneWaits(Some(2), false, true, 2);
    var s3 := Enqueue(s1, false, -1);
    assert s3.queue == [1, 0] && s3.conds == map[0 := Cond(0, true), 1 := Cond(-1, false)];
    var s4 := Own(s3, 2, false);
    assert !HasWaiter(s4.calls, 1);
    assert Without(s4.queue, 1) == [0] && s4.conds - {1} == s2.conds;
    assert Drop(s4, 1) == s2;
    assert Settle(s3, 2, 1, false, false, false) == (s2, Acquired);
  }

  lemma SharerWaitsAgain()
    ensures Leads(OneWaits(Some(2), false, true, 2), Wake(1, false), OneWaits(Some(2), false, false, 2), Parked)
  {
    hide Request, ReleaseStep, DowngradeStep, NotifyTop, DeleteStep, Drop, Finish;
    var s := OneWaits(Some(2), false, true, 2);
    var s1 := s.(calls := s.calls - {1});
    assert Settle(s1, 1, 0, false, false, false) == (OneWaits(Some(2), false, false, 2), Parked);
  }

  /** Not every pending acquire in shared mode of the topmost priority goes ahead when the owner downgrades: one
      that was notified before, and had to wait again because a more urgent request came first, stays asleep. */
  lemma DowngradeLeavesSharerBehind() returns (r: Run)
    ensures r.Valid() && |r.events| == 5
    ensures var s := r.states[5];
            && s.exc == Some(2) && SharesTop(s, 1) && Sound(s) && Enabled(s, Downgrade(2))
            && !GoesAhead(Step(s, Downgrade(2)).0, 1)
  {
    hide Sound, Enabled, Step, OneWaits, GoesAhead, SharesTop, Init;
    var s := [Init(), Init().(exc := Some(0)), OneWaits(Some(0), true, false, 1), OneWaits(None, false, true, 1),
              OneWaits(Some(2), false, true, 2), OneWaits(Some(2), false, false, 2)];
    r := Run(s, [ALONE, SHARING, Release(0), URGENT, Wake(1, false)], [Acquired, Parked, Returned, Acquired, Parked]);
    TakenAlone();
    SharerWaits();
    SharerIsNotified();
    UrgentOvertakes();
    SharerWaitsAgain();
    forall i: nat | i < 5 ensures r.StepAt(i) {
      assert Leads(r.states[i], r.events[i], r.states[i + 1], r.outs[i]);
    }
    StaysAsleep();
  }

  lemma StaysAsleep()
    ensures var s := OneWaits(Some(2), false, false, 2);
            && s.exc == Some(2) && SharesTop(s, 1) && Sound(s) && Enabled(s, Downgrade(2))
            && !GoesAhead(Step(s, Downgrade(2)).0, 1)
  {
    hide Request, ReleaseStep, NotifyTop, Resume, DeleteStep;
    var s' := Step(OneWaits(Some(2), false, false, 2), Downgrade(2)).0;
    assert !Enabled(s', Wake(1, false));
  }
}
