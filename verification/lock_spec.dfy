/** The shared lock of lib/locking.py, seen through one flat queue.

    The Python class keeps its pending requests in a heap of per-priority lists, an index of
    those lists and a map of joinable shared conditions.  This module keeps a single sequence
    of conditions in the order in which they will be served.  One function describes what one
    thread does between taking and giving back the internal lock; the only place where a call
    is split is the wait at lib/locking.py:720.  The class in shared_lock.dfy is proved to do
    exactly these steps. */
module LockSpec {
  import opened Basics

  type Thread = nat
  type CondRef = nat

  /** One pending condition.  References are handed out in increasing order, so a smaller
      reference belongs to a condition that was queued earlier. */
  datatype Cond = Cond(prio: int, shared: bool)

  /** The frame of a thread that sits in wait(): the condition it waits on, whether its pipe
      was already closed by a notification, whether its call carries a timeout, and whether
      the call comes from delete(). */
  datatype Call = Call(cond: CondRef, notified: bool, timed: bool, deleting: bool)

  datatype State = State(
    deleted: bool,
    exc: Option<Thread>,
    shr: set<Thread>,
    queue: seq<CondRef>,
    conds: map<CondRef, Cond>,
    joinable: map<int, CondRef>,
    calls: map<Thread, Call>,
    next: CondRef)

  datatype Outcome =
    | Acquired        // acquire() or delete() returned True
    | GaveUp          // acquire() or delete() returned False
    | Parked          // the call is blocked in wait()
    | Returned        // release(), downgrade() or _notify_topmost() came back
    | LockError       // errors.LockError: the lock is deleted
    | AssertionError  // the caller broke the protocol

  /** What can happen while the internal lock is held.  `expired` is the answer of the clock. */
  datatype Event =
    | Acquire(t: Thread, shared: bool, timeout: Option<real>, prio: int, expired: bool)
    | Delete(t: Thread, timeout: Option<real>, prio: int, expired: bool)
    | Wake(t: Thread, expired: bool)
    | Release(t: Thread)
    | Downgrade(t: Thread)
    | NotifyTopmost

  const MIN_TIMEOUT: real := 0.001

  function Init(): (s: State) {
    State(false, None, {}, [], map[], map[], map[], 0)
  }

  predicate Owns(s: State, t: Thread) {
    t in s.shr || s.exc == Some(t)
  }

  predicate Free(s: State) {
    s.exc.None? && s.shr == {}
  }

  predicate CanAcquire(s: State, shared: bool) {
    s.exc.None? && (shared || s.shr == {})
  }

  predicate Queued(s: State) {
    forall c <- s.queue :: c in s.conds
  }

  predicate HasWaiter(calls: map<Thread, Call>, c: CondRef) {
    exists t | t in calls :: calls[t].cond == c
  }

  predicate OnTop(s: State, c: CondRef) {
    s.queue != [] && s.queue[0] == c
  }

  /** __do_acquire */
  function Own(s: State, t: Thread, shared: bool): (r: State) {
    if shared then s.(shr := s.shr + {t}) else s.(exc := Some(t))
  }

  /** Where a new request of the given priority goes: behind everything that is at least as urgent. */
  function Slot(q: seq<CondRef>, conds: map<CondRef, Cond>, prio: int): (i: nat)
    requires forall c <- q :: c in conds
    ensures i <= |q|
  {
    if q == [] || conds[q[0]].prio > prio then 0 else 1 + Slot(q[1..], conds, prio)
  }

  function Inserted(q: seq<CondRef>, conds: map<CondRef, Cond>, c: CondRef, prio: int): (r: seq<CondRef>)
    requires forall d <- q :: d in conds
  {
    var i := Slot(q, conds, prio);
    q[..i] + [c] + q[i..]
  }

  function Without(q: seq<CondRef>, c: CondRef): (r: seq<CondRef>) {
    if q == [] then [] else if q[0] == c then q[1..] else [q[0]] + Without(q[1..], c)
  }

  /** A fresh condition is queued; a shared one can be joined by later sharers. */
  function Enqueue(s: State, shared: bool, prio: int): (r: State)
    requires Queued(s)
  {
    s.(queue := Inserted(s.queue, s.conds, s.next, prio),
       conds := s.conds[s.next := Cond(prio, shared)],
       joinable := if shared then s.joinable[prio := s.next] else s.joinable,
       next := s.next + 1)
  }

  /** The finally clause of __acquire_unlocked: a condition nobody waits on leaves the queue, and
      a shared one takes the joinable entry of its priority with it, whichever condition that
      entry names. */
  function Drop(s: State, c: CondRef): (r: State)
    requires c in s.conds
  {
    if HasWaiter(s.calls, c) then s
    else s.(queue := Without(s.queue, c),
            conds := s.conds - {c},
            joinable := if s.conds[c].shared then s.joinable - {s.conds[c].prio} else s.joinable)
  }

  function Notified(calls: map<Thread, Call>, c: CondRef): (r: map<Thread, Call>) {
    map t | t in calls :: if calls[t].cond == c then calls[t].(notified := true) else calls[t]
  }

  function Notify(s: State, c: CondRef): (r: State) {
    s.(calls := Notified(s.calls, c))
  }

  function NotifyTop(s: State): (r: State)
    requires Queued(s)
  {
    if s.queue == [] then s
    else
      var c := s.queue[0];
      var r := Notify(s, c);
      if s.conds[c].shared then r.(joinable := s.joinable - {s.conds[c].prio}) else r
  }

  function AllNotified(calls: map<Thread, Call>): (r: map<Thread, Call>) {
    map t | t in calls :: calls[t].(notified := true)
  }

  /** The end of delete(), run by the thread that holds the lock exclusively. */
  function MarkDeleted(s: State): (r: State) {
    s.(deleted := true, exc := None, calls := AllNotified(s.calls))
  }

  function Finish(s: State, deleting: bool): (r: State) {
    if deleting then MarkDeleted(s) else s
  }

  /** One turn of the loop at lib/locking.py:707: take the lock, give up, or wait on. */
  function Settle(s: State, t: Thread, c: CondRef, timed: bool, deleting: bool, expired: bool):
    (r: (State, Outcome))
    requires c in s.conds
  {
    var shared := s.conds[c].shared;
    if OnTop(s, c) && CanAcquire(s, shared) then
      (Finish(Drop(Own(s, t, shared), c), deleting), Acquired)
    else if timed && expired then
      (Drop(s, c), GaveUp)
    else
      (s.(calls := s.calls[t := Call(c, false, timed, deleting)]), Parked)
  }

  /** __acquire_unlocked up to its first wait. */
  function Request(s: State, t: Thread, shared: bool, timeout: Option<real>, prio: int,
                   deleting: bool, expired: bool): (r: (State, Outcome))
    requires Queued(s)
    requires forall p <- s.joinable :: s.joinable[p] in s.conds
  {
    if s.deleted then (s, LockError)
    else if Owns(s, t) then (s, AssertionError)
    else if s.queue == [] && CanAcquire(s, shared) then
      (Finish(Own(s, t, shared), deleting), Acquired)
    else if timeout.Some? && timeout.value < MIN_TIMEOUT then (s, GaveUp)
    else if shared && prio in s.joinable then
      Settle(s, t, s.joinable[prio], timeout.Some?, deleting, expired)
    else
      Settle(Enqueue(s, shared, prio), t, s.next, timeout.Some?, deleting, expired)
  }

  /** The thread comes back from wait() and holds the internal lock again. */
  function Resume(s: State, t: Thread, expired: bool): (r: (State, Outcome))
    requires t in s.calls && s.calls[t].cond in s.conds
  {
    var call := s.calls[t];
    var s1 := s.(calls := s.calls - {t});
    if s.deleted then (Drop(s1, call.cond), LockError)
    else Settle(s1, t, call.cond, call.timed, call.deleting, expired)
  }

  function ReleaseStep(s: State, t: Thread): (r: (State, Outcome))
    requires Queued(s)
  {
    if s.exc == Some(t) then (NotifyTop(s.(exc := None)), Returned)
    else if t in s.shr then
      var s1 := s.(shr := s.shr - {t});
      (if s1.shr == {} then NotifyTop(s1) else s1, Returned)
    else (s, AssertionError)
  }

  /** Sharers of the topmost priority go ahead of everything queued at that priority. */
  function DowngradeStep(s: State, t: Thread): (r: (State, Outcome))
    requires Queued(s)
  {
    if s.exc == Some(t) then
      var s1 := s.(exc := None, shr := s.shr + {t});
      if s.queue == [] then (s1, Returned)
      else
        var prio := s.conds[s.queue[0]].prio;
        if prio !in s.joinable then (s1, Returned)
        else
          var c := s.joinable[prio];
          (Notify(s1.(queue := [c] + Without(s.queue, c), joinable := s.joinable - {prio}), c), Returned)
    else (s, if t in s.shr then Returned else AssertionError)
  }

  function DeleteStep(s: State, t: Thread, timeout: Option<real>, prio: int, expired: bool):
    (r: (State, Outcome))
    requires Queued(s)
    requires forall p <- s.joinable :: s.joinable[p] in s.conds
  {
    if t in s.shr then (s, AssertionError)
    else if s.deleted then (s, LockError)
    else if s.exc == Some(t) then (MarkDeleted(s), Acquired)
    else Request(s, t, false, timeout, prio, true, expired)
  }

  /** A thread inside wait() can do nothing else, and comes back only when its pipe was closed or
      when the poll on it may time out. */
  predicate Enabled(s: State, e: Event) {
    match e
    case Wake(t, _) => t in s.calls && (s.calls[t].notified || s.calls[t].timed)
    case NotifyTopmost => true
    case _ => e.t !in s.calls
  }

  predicate Sound(s: State) {
    && Queued(s)
    && (forall p <- s.joinable :: s.joinable[p] in s.conds)
    && (forall t <- s.calls :: s.calls[t].cond in s.conds)
  }

  function Step(s: State, e: Event): (r: (State, Outcome))
    requires Sound(s) && Enabled(s, e)
  {
    match e
    case Acquire(t, shared, timeout, prio, expired) => Request(s, t, shared, timeout, prio, false, expired)
    case Delete(t, timeout, prio, expired) => DeleteStep(s, t, timeout, prio, expired)
    case Wake(t, expired) => Resume(s, t, expired)
    case Release(t) => ReleaseStep(s, t)
    case Downgrade(t) => DowngradeStep(s, t)
    case NotifyTopmost => (NotifyTop(s), Returned)
  }
}
