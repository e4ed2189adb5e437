/** The pipe conditions behind the shared lock: parking, waking and notifying in SharedLock are wait() and
    notify_all() of the conditions (lib/locking.py:713-729, 788-794, 830-841, 888-891). */
module LockPipes {
  import opened Basics
  import opened LockSpec
  import opened LockInvariants
  import opened LockRuns
  import opened PipeConditions

  /** Who waits on a condition, and who of them has been notified. */
  function View(calls: map<Thread, Call>, c: CondRef): (w: map<Thread, bool>) {
    map t | t in calls && calls[t].cond == c :: calls[t].notified
  }

  function AllTold(w: map<Thread, bool>): (r: map<Thread, bool>) {
    map t | t in w :: true
  }

  /** The thread comes back from wait() on the condition. */
  predicate Leaves(s: State, e: Event, c: CondRef)
    requires Enabled(s, e)
  {
    e.Wake? && s.calls[e.t].cond == c
  }

  /** The step calls notify_all() of the condition. */
  predicate Announces(s: State, e: Event, c: CondRef)
    requires Sound(s) && Enabled(s, e)
  {
    match e
    case Release(t) => OnTop(s, c) && (s.exc == Some(t) || s.shr == {t})
    case NotifyTopmost => OnTop(s, c)
    case Downgrade(t) =>
      && s.exc == Some(t) && s.queue != []
      && s.conds[s.queue[0]].prio in s.joinable && s.joinable[s.conds[s.queue[0]].prio] == c
    case _ => !s.deleted && Step(s, e).0.deleted
  }

  /** The step ends in wait() on the condition. */
  predicate Parks(s: State, e: Event, c: CondRef)
    requires Sound(s) && Enabled(s, e)
  {
    && (e.Acquire? || e.Delete? || e.Wake?) && Step(s, e).1 == Parked
    && e.t in Step(s, e).0.calls && Step(s, e).0.calls[e.t].cond == c
  }

  /** What the calls of a step do to one condition: wait() ends, notify_all(), wait() begins. */
  function Driven(w: map<Thread, bool>, leaves: Option<Thread>, announces: bool, parks: Option<Thread>): (r: map<Thread, bool>) {
    var w1 := if leaves.Some? then w - {leaves.value} else w;
    var w2 := if announces then AllTold(w1) else w1;
    if parks.Some? then w2[parks.value := false] else w2
  }

  /** Those who wait on the condition after the calls of a step. */
  function Moved(s: State, e: Event, c: CondRef): (w: map<Thread, bool>)
    requires Sound(s) && Enabled(s, e)
  {
    Driven(View(s.calls, c), if Leaves(s, e, c) then Some(e.t) else None, Announces(s, e, c),
           if Parks(s, e, c) then Some(e.t) else None)
  }

  lemma NotifiedView(calls: map<Thread, Call>, d: CondRef, c: CondRef)
    ensures View(Notified(calls, d), c) == if c == d then AllTold(View(calls, c)) else View(calls, c)
    ensures View(AllNotified(calls), c) == AllTold(View(calls, c))
  {
  }

  lemma SettleView(s: State, t: Thread, d: CondRef, timed: bool, deleting: bool, expired: bool, c: CondRef)
    requires d in s.conds && !s.deleted && t !in s.calls
    ensures var (s', out) := Settle(s, t, d, timed, deleting, expired);
            && (out == Parked ==> t in s'.calls && s'.calls[t].cond == d && !s'.deleted)
            && View(s'.calls, c) ==
               if out == Parked && c == d then View(s.calls, c)[t := false]
               else if s'.deleted then AllTold(View(s.calls, c))
               else View(s.calls, c)
  {
    NotifiedView(s.calls, d, c);
    ParkedView(s.calls, t, d, timed, deleting, c);
    TakenCalls(s, t, d, s.conds[d].shared, deleting);
    hide View, AllTold, Drop, Own, Finish, AllNotified, Notified;
  }

  lemma ParkedView(calls: map<Thread, Call>, t: Thread, d: CondRef, timed: bool, deleting: bool, c: CondRef)
    requires t !in calls
    ensures View(calls[t := Call(d, false, timed, deleting)], c) ==
            if c == d then View(calls, c)[t := false] else View(calls, c)
  {
  }

  lemma TakenCalls(s: State, t: Thread, d: CondRef, shared: bool, deleting: bool)
    requires d in s.conds
    ensures Drop(s, d).calls == s.calls && Drop(s, d).deleted == s.deleted
    ensures var s' := Finish(Drop(Own(s, t, shared), d), deleting);
            && s'.deleted == (s.deleted || deleting)
            && s'.calls == if deleting then AllNotified(s.calls) else s.calls
  {
    hide Without, HasWaiter, AllNotified;
  }

  lemma RequestView(s: State, t: Thread, shared: bool, timeout: Option<real>, prio: int, deleting: bool, expired: bool, c: CondRef)
    requires Sound(s) && t !in s.calls
    ensures var (s', out) := Request(s, t, shared, timeout, prio, deleting, expired);
            && (out == Parked ==> t in s'.calls && !s'.deleted)
            && View(s'.calls, c) ==
               if out == Parked && s'.calls[t].cond == c then View(s.calls, c)[t := false]
               else if !s.deleted && s'.deleted then AllTold(View(s.calls, c))
               else View(s.calls, c)
  {
    hide Settle, View;
    if !s.deleted {
      NotifiedView(s.calls, 0, c);
      if shared && prio in s.joinable {
        SettleView(s, t, s.joinable[prio], timeout.Some?, deleting, expired, c);
      } else {
        SettleView(Enqueue(s, shared, prio), t, s.next, timeout.Some?, deleting, expired, c);
      }
    }
  }

  lemma ResumeView(s: State, t: Thread, expired: bool, c: CondRef)
    requires t in s.calls && s.calls[t].cond in s.conds
    ensures var (s', out) := Resume(s, t, expired);
            var w := if s.calls[t].cond == c then View(s.calls, c) - {t} else View(s.calls, c);
            && (out == Parked ==> t in s'.calls && !s'.deleted && s'.calls[t].cond == s.calls[t].cond)
            && View(s'.calls, c) ==
               if out == Parked && s'.calls[t].cond == c then w[t := false]
               else if !s.deleted && s'.deleted then AllTold(w)
               else w
  {
    hide Settle, Without;
    var call := s.calls[t];
    var s1 := s.(calls := s.calls - {t});
    assert View(s1.calls, c) == if call.cond == c then View(s.calls, c) - {t} else View(s.calls, c);
    if !s.deleted {
      SettleView(s1, t, call.cond, call.timed, call.deleting, expired, c);
    }
  }

  lemma NotifyingView(s: State, e: Event, c: CondRef)
    requires Sound(s) && Enabled(s, e) && (e.Release? || e.Downgrade? || e.NotifyTopmost?)
    ensures View(Step(s, e).0.calls, c) == Moved(s, e, c)
  {
    hide View, AllTold, Without, Notified;
    match e
    case Release(t) =>
      if s.queue != [] {
        NotifiedView(s.calls, s.queue[0], c);
      }
      assert t in s.shr ==> (s.shr - {t} == {} <==> s.shr == {t});
    case NotifyTopmost =>
      if s.queue != [] {
        NotifiedView(s.calls, s.queue[0], c);
      }
    case Downgrade(t) =>
      if s.exc == Some(t) && s.queue != [] && s.conds[s.queue[0]].prio in s.joinable {
        NotifiedView(s.calls, s.joinable[s.conds[s.queue[0]].prio], c);
      }
  }

  lemma DeletionView(s: State, t: Thread, timeout: Option<real>, prio: int, expired: bool, c: CondRef)
    requires Sound(s) && t !in s.calls
    ensures var (s', out) := DeleteStep(s, t, timeout, prio, expired);
            && (out == Parked ==> t in s'.calls && !s'.deleted)
            && View(s'.calls, c) ==
               if out == Parked && s'.calls[t].cond == c then View(s.calls, c)[t := false]
               else if !s.deleted && s'.deleted then AllTold(View(s.calls, c))
               else View(s.calls, c)
  {
    hide Request, View, AllTold, AllNotified;
    RequestView(s, t, false, timeout, prio, true, expired, c);
    NotifiedView(s.calls, 0, c);
  }

  /** In every step those who wait on a condition change as its wait() and notify_all() change them. */
  lemma StepMoves(s: State, e: Event, c: CondRef)
    requires Inv(s) && Enabled(s, e)
    ensures Sound(s) && View(Step(s, e).0.calls, c) == Moved(s, e, c)
  {
    InvIsSound(s);
    hide Inv, Request, Resume, DeleteStep, ReleaseStep, DowngradeStep, NotifyTop, View, AllTold;
    match e
    case Acquire(t, shared, timeout, prio, expired) => RequestView(s, t, shared, timeout, prio, false, expired, c);
    case Delete(t, timeout, prio, expired) => DeletionView(s, t, timeout, prio, expired, c);
    case Wake(t, expired) => ResumeView(s, t, expired, c);
    case _ => NotifyingView(s, e, c);
  }

  lemma ViewCases(s: State, e: Event, c: CondRef)
    requires Sound(s) && Enabled(s, e)
    ensures Leaves(s, e, c) ==> e.t in View(s.calls, c)
    ensures Parks(s, e, c) && !Leaves(s, e, c) ==> e.t !in View(s.calls, c)
  {
  }

  method Drive(p: PipeCondition, leaves: Option<Thread>, announces: bool, parks: Option<Thread>)
    requires p.Valid() && (leaves.Some? ==> leaves.value in p.waiters)
    requires parks.Some? ==> parks.value !in p.waiters || parks == leaves
    modifies p
    ensures p.Valid() && p.Waiting() == Driven(old(p.Waiting()), leaves, announces, parks)
  {
    hide Counts, Holds, Accounted, Fresh, Cycles, Told;
    p.WaitersAre();
    if leaves.Some? {
      p.WaitEnd(leaves.value);
    }
    if announces {
      p.NotifyAll();
    }
    p.WaitersAre();
    if parks.Some? {
      p.WaitBegin(parks.value);
    }
  }

  /** One condition object goes along with one step of the lock. */
  method Follow(p: PipeCondition, s: State, e: Event, c: CondRef)
    requires p.Valid() && Inv(s) && Enabled(s, e) && p.Waiting() == View(s.calls, c)
    modifies p
    ensures p.Valid() && p.Waiting() == View(Step(s, e).0.calls, c)
  {
    StepMoves(s, e, c);
    ViewCases(s, e, c);
    p.WaitersAre();
    hide Inv, Sound, Enabled, Step, View, Announces;
    var leaves := if Leaves(s, e, c) then Some(e.t) else None;
    var parks := if Parks(s, e, c) then Some(e.t) else None;
    Drive(p, leaves, Announces(s, e, c), parks);
  }

  /** Over every run: the threads in wait() on a condition, and whether their pipe was closed, are those that
      the lock's own account says; somebody waits exactly when has_waiting() says so, and with nobody waiting
      no descriptor of the condition is open. */
  method FollowRun(r: Run, c: CondRef) returns (p: PipeCondition)
    requires r.Valid()
    ensures var calls := r.states[|r.events|].calls;
            && fresh(p) && p.Valid() && p.Waiting() == View(calls, c)
            && (p.waiters != {} <==> HasWaiter(calls, c)) && (!HasWaiter(calls, c) ==> p.open.Keys == {})
  {
    p := new PipeCondition();
    assert View(map[], c) == map[];
    for i := 0 to |r.events|
      invariant fresh(p) && p.Valid() && p.Waiting() == View(r.states[i].calls, c)
    {
      hide Inv, View, Step, Enabled;
      RunInv(r, i);
      assert r.StepAt(i);
      Follow(p, r.states[i], r.events[i], c);
    }
    p.WaitersAre();
    p.NoLeak();
    var calls := r.states[|r.events|].calls;
    if t :| t in p.waiters {
      assert calls[t].cond == c;
    }
    if HasWaiter(calls, c) {
      var t :| t in calls && calls[t].cond == c;
      assert t in View(calls, c);
    }
  }
}
