/** Who owns the lock, told from the calls and their outcomes alone.

    A book is kept by somebody who sees every call of a run and what it comes back with, and nothing of
    the lock itself.  It always agrees with the lock, so what the outcomes promise is what the lock does. */
module LockBooks {
  import opened Basics
  import opened LockSpec
  import opened LockInvariants
  import opened LockRuns

  /** What a blocked call asked for. */
  datatype Ask = Ask(shared: bool, timed: bool, deleting: bool)

  /** Owners, each with whether it shares; blocked calls; whether a delete() came back with True. */
  datatype Book = Book(holds: map<Thread, bool>, asks: map<Thread, Ask>, deleted: bool)

  /** acquire() or delete() came back with True. */
  function Won(b: Book, t: Thread, ask: Ask): (r: Book) {
    if ask.deleting then b.(deleted := true, holds := b.holds - {t}) else b.(holds := b.holds[t := ask.shared])
  }

  function Called(b: Book, t: Thread, ask: Ask, out: Outcome): (r: Book) {
    if out == Acquired then Won(b, t, ask)
    else if out == Parked then b.(asks := b.asks[t := ask])
    else b
  }

  function Note(b: Book, e: Event, out: Outcome): (r: Book) {
    match e
    case Acquire(t, shared, timeout, _, _) => Called(b, t, Ask(shared, timeout.Some?, false), out)
    case Delete(t, timeout, _, _) => Called(b, t, Ask(false, timeout.Some?, true), out)
    case Wake(t, _) => if t in b.asks then Called(b.(asks := b.asks - {t}), t, b.asks[t], out) else b
    case Release(t) => if out == Returned then b.(holds := b.holds - {t}) else b
    case Downgrade(t) => if out == Returned then b.(holds := b.holds[t := true]) else b
    case NotifyTopmost => b
  }

  /** The book after the first i steps. */
  ghost function Kept(r: Run, i: nat): (b: Book)
    requires i <= |r.events| == |r.outs|
  {
    if i == 0 then Book(map[], map[], false) else Note(Kept(r, i - 1), r.events[i - 1], r.outs[i - 1])
  }

  // ----- what the lock itself says -----

  function Holders(s: State): (r: map<Thread, bool>) {
    map t | t in s.shr + (if s.exc.Some? then {s.exc.value} else {}) :: s.exc != Some(t)
  }

  ghost function AskOf(s: State, t: Thread): (r: Ask)
    requires t in s.calls && s.calls[t].cond in s.conds
  {
    Ask(s.conds[s.calls[t].cond].shared, s.calls[t].timed, s.calls[t].deleting)
  }

  ghost function Asks(s: State): (r: map<Thread, Ask>)
    requires Sound(s)
  {
    map t | t in s.calls :: AskOf(s, t)
  }

  ghost function Told(s: State): (r: Book)
    requires Sound(s)
  {
    Book(Holders(s), Asks(s), s.deleted)
  }

  // ----- the two always agree -----

  lemma SameAsks(s: State, s': State)
    requires Sound(s) && Sound(s') && s'.calls.Keys == s.calls.Keys
    requires forall t <- s.calls :: AskOf(s', t) == AskOf(s, t)
    ensures Asks(s') == Asks(s)
  {
  }

  lemma DropTold(s: State, c: CondRef)
    requires Sound(s) && c in s.conds && Sound(Drop(s, c))
    ensures Told(Drop(s, c)) == Told(s)
  {
    SameAsks(s, Drop(s, c));
  }

  lemma OwnTold(s: State, t: Thread, shared: bool)
    requires Sound(s) && CanAcquire(s, shared) && !Owns(s, t)
    ensures Sound(Own(s, t, shared)) && Told(Own(s, t, shared)) == Won(Told(s), t, Ask(shared, false, false))
  {
    SameAsks(s, Own(s, t, shared));
  }

  lemma DeletedTold(s: State, t: Thread)
    requires Sound(s) && s.exc == Some(t) && s.shr == {}
    ensures Sound(MarkDeleted(s)) && Told(MarkDeleted(s)) == Won(Told(s), t, Ask(false, false, true))
  {
    SameAsks(s, MarkDeleted(s));
  }

  lemma FinishTold(s: State, t: Thread, shared: bool, timed: bool, deleting: bool)
    requires Sound(s) && CanAcquire(s, shared) && !Owns(s, t) && (deleting ==> !shared)
    ensures var s' := Finish(Own(s, t, shared), deleting);
            Sound(s') && Told(s') == Won(Told(s), t, Ask(shared, timed, deleting))
  {
    hide Sound, Asks;
    OwnTold(s, t, shared);
    if deleting {
      DeletedTold(Own(s, t, shared), t);
    }
  }

  lemma ParkTold(s: State, t: Thread, call: Call)
    requires Sound(s) && t !in s.calls && call.cond in s.conds
    ensures var s', ask := s.(calls := s.calls[t := call]), Ask(s.conds[call.cond].shared, call.timed, call.deleting);
            Sound(s') && Told(s') == Told(s).(asks := Told(s).asks[t := ask])
  {
  }

  /** What the proofs below need of a thread at the head of the loop. */
  lemma LoopFacts(s: State, t: Thread, c: CondRef, deleting: bool)
    requires AtLoop(s, t, c, deleting)
    ensures Sound(s) && c in s.conds && t !in s.calls && !Owns(s, t) && (deleting ==> !s.conds[c].shared)
  {
  }

  lemma TakeTold(s: State, t: Thread, c: CondRef, timed: bool, deleting: bool)
    requires Sound(s) && AtLoop(s, t, c, deleting) && CanAcquire(s, s.conds[c].shared)
    requires Sound(Drop(Own(s, t, s.conds[c].shared), c))
    ensures var s' := Finish(Drop(Own(s, t, s.conds[c].shared), c), deleting);
            Sound(s') && Told(s') == Won(Told(s), t, Ask(s.conds[c].shared, timed, deleting))
  {
    LoopFacts(s, t, c, deleting);
    var shared := s.conds[c].shared;
    var s1 := Own(s, t, shared);
    OwnTold(s, t, shared);
    DropTold(s1, c);
    hide AtLoop, Sound, Asks;
    if deleting {
      DeletedTold(Drop(s1, c), t);
    }
  }

  lemma TakenIsSound(s: State, t: Thread, c: CondRef, deleting: bool)
    requires AtLoop(s, t, c, deleting) && CanAcquire(s, s.conds[c].shared)
    ensures Sound(Drop(Own(s, t, s.conds[c].shared), c))
  {
    var s1 := Own(s, t, s.conds[c].shared);
    assert Steady(s1, {c});
    DropKeeps(s1, c);
    hide Drop;
  }

  lemma SettleTold(s: State, t: Thread, c: CondRef, timed: bool, deleting: bool, expired: bool)
    requires AtLoop(s, t, c, deleting) && Sound(s)
    ensures var (s', out) := Settle(s, t, c, timed, deleting, expired);
            Sound(s') && Told(s') == Called(Told(s), t, Ask(s.conds[c].shared, timed, deleting), out)
  {
    LoopFacts(s, t, c, deleting);
    SettleKeeps(s, t, c, timed, deleting, expired);
    InvIsSound(Settle(s, t, c, timed, deleting, expired).0);
    hide AtLoop, Inv, Sound, Drop, Own, Told;
    if OnTop(s, c) && CanAcquire(s, s.conds[c].shared) {
      TakenIsSound(s, t, c, deleting);
      TakeTold(s, t, c, timed, deleting);
    } else if timed && expired {
      DropTold(s, c);
    } else {
      ParkTold(s, t, Call(c, false, timed, deleting));
    }
  }

  lemma RequestTold(s: State, t: Thread, shared: bool, timeout: Option<real>, prio: int, deleting: bool, expired: bool)
    requires Inv(s) && Sound(s) && t !in s.calls && (deleting ==> !shared)
    ensures var (s', out) := Request(s, t, shared, timeout, prio, deleting, expired);
            Sound(s') && Told(s') == Called(Told(s), t, Ask(shared, timeout.Some?, deleting), out)
  {
    hide Settle, Told;
    if s.deleted || Owns(s, t) {
    } else if s.queue == [] && CanAcquire(s, shared) {
      FinishTold(s, t, shared, timeout.Some?, deleting);
    } else if timeout.Some? && timeout.value < MIN_TIMEOUT {
    } else if shared && prio in s.joinable {
      SettleTold(s, t, s.joinable[prio], timeout.Some?, deleting, expired);
    } else {
      EnqueueAtLoop(s, t, shared, prio, deleting);
      EnqueueTold(s, shared, prio);
      SettleTold(Enqueue(s, shared, prio), t, s.next, timeout.Some?, deleting, expired);
    }
  }

  lemma EnqueueTold(s: State, shared: bool, prio: int)
    requires Inv(s) && Sound(s)
    ensures Sound(Enqueue(s, shared, prio)) && Told(Enqueue(s, shared, prio)) == Told(s)
  {
    assert s.next !in s.conds;
    hide Inv;
    SameAsks(s, Enqueue(s, shared, prio));
  }

  lemma UnparkedTold(s: State, t: Thread)
    requires Sound(s) && t in s.calls
    ensures var s1 := s.(calls := s.calls - {t}); Sound(s1) && Told(s1) == Told(s).(asks := Told(s).asks - {t})
  {
  }

  lemma BackAtLoop(s: State, t: Thread)
    requires Inv(s) && t in s.calls && !s.deleted
    ensures AtLoop(s.(calls := s.calls - {t}), t, s.calls[t].cond, s.calls[t].deleting)
  {
    UnparkedKeeps(s.calls, s.conds, t);
    hide Shape;
    assert Steady(s.(calls := s.calls - {t}), {s.calls[t].cond});
  }

  lemma ResumeTold(s: State, t: Thread, expired: bool)
    requires Inv(s) && Sound(s) && t in s.calls
    ensures var (s', out) := Resume(s, t, expired);
            && Sound(s') && t in Told(s).asks
            && Told(s') == Called(Told(s).(asks := Told(s).asks - {t}), t, Told(s).asks[t], out)
  {
    UnparkedTold(s, t);
    ResumeKeeps(s, t, expired);
    InvIsSound(Resume(s, t, expired).0);
    assert t in Told(s).asks && Told(s).asks[t] == AskOf(s, t);
    hide Inv, AtLoop, Settle, Drop, Told;
    var call := s.calls[t];
    var s1 := s.(calls := s.calls - {t});
    if s.deleted {
      DropTold(s1, call.cond);
    } else {
      BackAtLoop(s, t);
      SettleTold(s1, t, call.cond, call.timed, call.deleting, expired);
    }
  }

  lemma NotifyTopTold(s: State)
    requires Sound(s)
    ensures Sound(NotifyTop(s)) && Told(NotifyTop(s)) == Told(s)
  {
    if s.queue != [] {
      NotifyAsks(s, s.queue[0]);
      hide Asks;
      SameCallers(Notify(s, s.queue[0]), NotifyTop(s));
    }
  }

  lemma NotifyAsks(s: State, c: CondRef)
    requires Sound(s)
    ensures Sound(Notify(s, c)) && Asks(Notify(s, c)) == Asks(s)
  {
    SameAsks(s, Notify(s, c));
    hide Asks;
  }

  /** A change of the owners, or of what can be joined. */
  lemma SameCallers(s: State, s': State)
    requires Sound(s) && s'.calls == s.calls && s'.conds == s.conds && s'.queue == s.queue
    requires forall p <- s'.joinable :: p in s.joinable && s'.joinable[p] == s.joinable[p]
    ensures Sound(s') && Asks(s') == Asks(s)
  {
    SameAsks(s, s');
  }

  lemma ReleaseTold(s: State, t: Thread)
    requires Inv(s) && Sound(s)
    ensures var (s', out) := ReleaseStep(s, t); Sound(s') && Told(s') == Note(Told(s), Release(t), out)
  {
    ExclusiveIsAlone(s);
    hide NotifyTop, Inv, Sound, Asks;
    if s.exc == Some(t) {
      var s1 := s.(exc := None);
      SameCallers(s, s1);
      assert Holders(s1) == Holders(s) - {t};
      NotifyTopTold(s1);
    } else if t in s.shr {
      var s1 := s.(shr := s.shr - {t});
      SameCallers(s, s1);
      assert Holders(s1) == Holders(s) - {t};
      NotifyTopTold(s1);
    } else {
      assert Told(s) == Note(Told(s), Release(t), AssertionError);
    }
  }

  lemma DowngradedAsks(s: State, t: Thread)
    requires Inv(s) && Sound(s) && Sound(DowngradeStep(s, t).0)
    ensures Asks(DowngradeStep(s, t).0) == Asks(s)
  {
    hide Inv, Without;
    SameAsks(s, DowngradeStep(s, t).0);
  }

  lemma DowngradedHolders(s: State, t: Thread)
    requires Queued(s) && (s.exc.Some? ==> s.shr == {})
    ensures var (s', out) := DowngradeStep(s, t);
            && s'.deleted == s.deleted
            && Holders(s') == if out == Returned then Holders(s)[t := true] else Holders(s)
  {
    hide Without, Notified;
  }

  lemma ExclusiveIsAlone(s: State)
    requires Inv(s)
    ensures s.exc.Some? ==> s.shr == {}
  {
  }

  lemma DowngradeTold(s: State, t: Thread)
    requires Inv(s) && Sound(s) && t !in s.calls
    ensures var (s', out) := DowngradeStep(s, t); Sound(s') && Told(s') == Note(Told(s), Downgrade(t), out)
  {
    ExclusiveIsAlone(s);
    DowngradeKeeps(s, t);
    InvIsSound(DowngradeStep(s, t).0);
    InvIsSound(s);
    hide Inv, DowngradeStep, Asks, Holders, Sound;
    DowngradedAsks(s, t);
    DowngradedHolders(s, t);
  }

  lemma DeleteTold(s: State, t: Thread, timeout: Option<real>, prio: int, expired: bool)
    requires Inv(s) && Sound(s) && t !in s.calls
    ensures var (s', out) := DeleteStep(s, t, timeout, prio, expired);
            Sound(s') && Told(s') == Called(Told(s), t, Ask(false, timeout.Some?, true), out)
  {
    ExclusiveIsAlone(s);
    RequestTold(s, t, false, timeout, prio, true, expired);
    InvIsSound(s);
    hide Inv, Request, Sound, Told, MarkDeleted;
    if s.exc == Some(t) {
      DeletedTold(s, t);
    }
  }

  lemma StepTold(s: State, e: Event)
    requires Inv(s) && Sound(s) && Enabled(s, e)
    ensures var (s', out) := Step(s, e); Sound(s') && Told(s') == Note(Told(s), e, out)
  {
    InvIsSound(s);
    hide Inv, Request, Resume, DeleteStep, ReleaseStep, DowngradeStep, NotifyTop, Sound, Told, Called;
    match e
    case Acquire(t, shared, timeout, prio, expired) => RequestTold(s, t, shared, timeout, prio, false, expired);
    case Delete(t, timeout, prio, expired) => DeleteTold(s, t, timeout, prio, expired);
    case Wake(t, expired) => ResumeTold(s, t, expired);
    case Release(t) => ReleaseTold(s, t);
    case Downgrade(t) => DowngradeTold(s, t);
    case NotifyTopmost => NotifyTopTold(s);
  }

  lemma NothingTold()
    ensures Sound(Init()) && Told(Init()) == Book(map[], map[], false)
  {
  }

  /** In every run the book that is kept from calls and outcomes says what the lock says: the same owners in
      the same modes, the same blocked calls, the same deletion. */
  lemma {:induction false} BookAgrees(r: Run, i: nat)
    requires r.Valid() && i < |r.states|
    ensures Sound(r.states[i]) && Kept(r, i) == Told(r.states[i])
    decreases i
  {
    hide Inv, Sound, Step, Enabled, Told, Note;
    RunInv(r, i);
    InvIsSound(r.states[i]);
    if i == 0 {
      NothingTold();
    } else {
      BookAgrees(r, i - 1);
      RunInv(r, i - 1);
      assert r.StepAt(i - 1);
      StepTold(r.states[i - 1], r.events[i - 1]);
    }
  }

  // ----- what a caller may rely on -----

  /** Nobody stands in the way: no owner at all, or sharers only for a call that shares. */
  predicate Permits(b: Book, shared: bool) {
    forall u <- b.holds :: shared && b.holds[u]
  }

  /** The clock lets the call give up. */
  predicate OutOfTime(timeout: Option<real>, expired: bool) {
    timeout.Some? && (timeout.value < MIN_TIMEOUT || expired)
  }

  /** A call that neither fails nor takes the lock gives up when its time is over, and only then; it takes
      the lock only if nobody stands in the way. */
  predicate Fair(b: Book, shared: bool, late: bool, out: Outcome) {
    && out in {Acquired, GaveUp, Parked}
    && (out == Acquired ==> Permits(b, shared))
    && (out == GaveUp ==> late)
    && (out == Parked ==> !late)
  }

  /** What a call can come back with, given the book before it. */
  predicate Answers(b: Book, e: Event, out: Outcome) {
    match e
    case Acquire(t, shared, timeout, _, expired) =>
      if b.deleted then out == LockError
      else if t in b.holds then out == AssertionError
      else Fair(b, shared, OutOfTime(timeout, expired), out) &&
           (Permits(b, shared) && b.asks == map[] ==> out == Acquired)
    case Delete(t, timeout, _, expired) =>
      if b.deleted then out == LockError
      else if t in b.holds then out == if b.holds[t] then AssertionError else Acquired
      else Fair(b, false, OutOfTime(timeout, expired), out) && (b.holds == map[] && b.asks == map[] ==> out == Acquired)
    case Wake(t, expired) =>
      && t in b.asks
      && if b.deleted then out == LockError
         else Fair(b, b.asks[t].shared, b.asks[t].timed && expired, out)
    case Release(t) => out == if t in b.holds then Returned else AssertionError
    case Downgrade(t) => out == if t in b.holds then Returned else AssertionError
    case NotifyTopmost => out == Returned
  }

  lemma PermitsIs(s: State, shared: bool)
    requires Inv(s) && Sound(s)
    ensures Permits(Told(s), shared) <==> CanAcquire(s, shared)
    ensures forall t :: t in Told(s).holds <==> Owns(s, t)
    ensures forall t <- Told(s).holds :: Told(s).holds[t] <==> t in s.shr
    ensures Told(s).holds == map[] <==> Free(s)
    ensures s.deleted ==> Free(s)
  {
    hide Sound, Asks;
    forall t ensures t in Told(s).holds <==> Owns(s, t) {
    }
    if s.exc.Some? {
      assert s.exc.value in Told(s).holds;
    } else if s.shr != {} {
      var t :| t in s.shr;
      assert t in Told(s).holds;
    } else {
      assert Told(s).holds == map[];
    }
  }

  lemma NobodyAsks(s: State)
    requires Inv(s) && Sound(s) && Asks(s) == map[]
    ensures s.queue == []
  {
    assert s.calls == map[] by {
      assert s.calls.Keys == Asks(s).Keys == {};
    }
    assert s.queue != [] ==> HasWaiter(s.calls, s.queue[0]);
  }

  lemma SettleAnswers(s: State, t: Thread, c: CondRef, timed: bool, deleting: bool, expired: bool)
    requires c in s.conds
    ensures var out := Settle(s, t, c, timed, deleting, expired).1;
            && out in {Acquired, GaveUp, Parked}
            && (out == Acquired ==> CanAcquire(s, s.conds[c].shared))
            && (out == GaveUp ==> timed && expired)
            && (out == Parked ==> !(timed && expired))
  {
    hide Drop, Finish, Own;
  }

  lemma RequestAnswers(s: State, t: Thread, shared: bool, timeout: Option<real>, prio: int, deleting: bool, expired: bool)
    requires Inv(s) && Sound(s) && !s.deleted && !Owns(s, t)
    ensures var out := Request(s, t, shared, timeout, prio, deleting, expired).1;
            && Fair(Told(s), shared, OutOfTime(timeout, expired), out)
            && (Permits(Told(s), shared) && Asks(s) == map[] ==> out == Acquired)
  {
    PermitsIs(s, shared);
    if Asks(s) == map[] {
      NobodyAsks(s);
    }
    hide Inv, Told, Asks, Permits, Request;
    RequestSettles(s, t, shared, timeout, prio, deleting, expired);
  }

  /** The same in terms of the state. */
  lemma RequestSettles(s: State, t: Thread, shared: bool, timeout: Option<real>, prio: int, deleting: bool, expired: bool)
    requires Inv(s) && Sound(s) && !s.deleted && !Owns(s, t)
    ensures var out, late := Request(s, t, shared, timeout, prio, deleting, expired).1, OutOfTime(timeout, expired);
            && out in {Acquired, GaveUp, Parked}
            && (out == Acquired ==> CanAcquire(s, shared))
            && (out == GaveUp ==> late) && (out == Parked ==> !late)
            && (CanAcquire(s, shared) && s.queue == [] ==> out == Acquired)
  {
    assert shared && prio in s.joinable ==> s.conds[s.joinable[prio]].shared;
    hide Inv, Settle, Inserted, Owns;
    if shared && prio in s.joinable {
      SettleAnswers(s, t, s.joinable[prio], timeout.Some?, deleting, expired);
    } else {
      SettleAnswers(Enqueue(s, shared, prio), t, s.next, timeout.Some?, deleting, expired);
    }
  }

  lemma ResumeAnswers(s: State, t: Thread, expired: bool)
    requires Inv(s) && Sound(s) && t in s.calls
    ensures Answers(Told(s), Wake(t, expired), Resume(s, t, expired).1)
  {
    var call := s.calls[t];
    var s1 := s.(calls := s.calls - {t});
    PermitsIs(s, s.conds[call.cond].shared);
    SettleAnswers(s1, t, call.cond, call.timed, call.deleting, expired);
    assert t in Told(s).asks && Told(s).asks[t] == AskOf(s, t);
    hide Inv, Permits, Drop, Settle, Holders;
  }

  lemma ReturnAnswers(s: State, t: Thread)
    requires Inv(s) && Sound(s)
    ensures Answers(Told(s), Release(t), ReleaseStep(s, t).1) && Answers(Told(s), Downgrade(t), DowngradeStep(s, t).1)
  {
    PermitsIs(s, false);
    hide Inv, Permits, NotifyTop, Told, Without, Notify;
  }

  lemma StepAnswers(s: State, e: Event)
    requires Inv(s) && Sound(s) && Enabled(s, e)
    ensures Answers(Told(s), e, Step(s, e).1)
  {
    PermitsIs(s, false);
    hide Inv, Permits, Request, Resume, ReleaseStep, DowngradeStep, NotifyTop, Holders, Asks, MarkDeleted, Fair, Sound;
    match e
    case Acquire(t, shared, timeout, prio, expired) =>
      if !s.deleted && !Owns(s, t) {
        RequestAnswers(s, t, shared, timeout, prio, false, expired);
      } else {
        FailingRequest(s, t, shared, timeout, prio, false, expired);
      }
    case Delete(t, timeout, prio, expired) =>
      if !s.deleted && !Owns(s, t) {
        RequestAnswers(s, t, false, timeout, prio, true, expired);
      }
    case Wake(t, expired) => ResumeAnswers(s, t, expired);
    case Release(t) => ReturnAnswers(s, t);
    case Downgrade(t) => ReturnAnswers(s, t);
    case NotifyTopmost =>
  }

  lemma FailingRequest(s: State, t: Thread, shared: bool, timeout: Option<real>, prio: int, deleting: bool, expired: bool)
    requires Sound(s) && (s.deleted || Owns(s, t))
    ensures Request(s, t, shared, timeout, prio, deleting, expired) == (s, if s.deleted then LockError else AssertionError)
  {
    hide Settle;
  }

  /** Every outcome in every run is one that the book allows: a deleted lock refuses, owners cannot ask again,
      release() and downgrade() work for owners and only for them, a call without time left gives up instead of
      waiting, and a call that nobody stands in the way of succeeds at once when no other call is blocked. */
  lemma OutcomesAreFair(r: Run, k: nat)
    requires r.Valid() && k < |r.events|
    ensures Answers(Kept(r, k), r.events[k], r.outs[k])
  {
    RunInv(r, k);
    BookAgrees(r, k);
    assert r.StepAt(k);
    StepAnswers(r.states[k], r.events[k]);
  }

  // ----- from the outcome to the lock -----

  /** The owners as the lock keeps them. */
  lemma Reads(r: Run, i: nat, u: Thread)
    requires r.Valid() && i < |r.states|
    ensures var s, b := r.states[i], Kept(r, i);
            && b.deleted == s.deleted
            && (s.exc == Some(u) <==> u in b.holds && !b.holds[u])
            && (u in s.shr <==> u in b.holds && b.holds[u])
            && (u in s.calls <==> u in b.asks)
  {
    BookAgrees(r, i);
    RunInv(r, i);
    ExclusiveIsAlone(r.states[i]);
    hide Kept, Sound, Inv, r.Valid;
  }

  /** The call of t that step i makes, and what it asks for. */
  predicate Asking(e: Event, t: Thread, ask: Ask) {
    match e
    case Acquire(u, shared, timeout, _, _) => u == t && ask == Ask(shared, timeout.Some?, false)
    case Delete(u, timeout, _, _) => u == t && ask == Ask(false, timeout.Some?, true)
    case _ => false
  }

  /** Step k is the end of the call that t made in step i, or one of its turns. */
  ghost predicate InCall(r: Run, i: nat, k: nat, t: Thread, ask: Ask) {
    && i <= k < |r.events| && Asking(r.events[i], t, ask)
    && (k == i || (StillWaits(r, i, k, t) && r.events[k].Wake? && r.events[k].t == t))
  }

  /** One step later the call, if it still waits, asks for the same. */
  lemma AskStandsOnce(r: Run, k: nat, t: Thread)
    requires r.Valid() && k < |r.events| && t in r.states[k].calls && t in r.states[k + 1].calls
    ensures t in Kept(r, k).asks && t in Kept(r, k + 1).asks && Kept(r, k + 1).asks[t] == Kept(r, k).asks[t]
  {
    Reads(r, k, t);
    Reads(r, k + 1, t);
    assert Kept(r, k + 1) == Note(Kept(r, k), r.events[k], r.outs[k]);
    assert r.StepAt(k);
    hide Kept, r.Valid, Step, Sound;
  }

  lemma AskBegins(r: Run, i: nat, t: Thread, ask: Ask)
    requires r.Valid() && i < |r.events| && Asking(r.events[i], t, ask) && t in r.states[i + 1].calls
    ensures t in Kept(r, i + 1).asks && Kept(r, i + 1).asks[t] == ask
  {
    Reads(r, i, t);
    Reads(r, i + 1, t);
    assert Kept(r, i + 1) == Note(Kept(r, i), r.events[i], r.outs[i]);
    assert r.StepAt(i);
    hide Kept, r.Valid, Step, Sound;
  }

  lemma {:induction false} AskStands(r: Run, i: nat, k: nat, t: Thread, ask: Ask)
    requires r.Valid() && i < |r.events| && Asking(r.events[i], t, ask) && StillWaits(r, i, k, t)
    ensures t in Kept(r, k).asks && Kept(r, k).asks[t] == ask
    decreases k
  {
    hide r.StepAt, Kept;
    if k == i + 1 {
      AskBegins(r, i, t, ask);
    } else {
      AskStands(r, i, k - 1, t, ask);
      AskStandsOnce(r, k - 1, t);
    }
  }

  lemma TrueIsNoted(r: Run, i: nat, k: nat, t: Thread, ask: Ask)
    requires r.Valid() && InCall(r, i, k, t, ask) && r.outs[k] == Acquired
    ensures var b, b' := Kept(r, k), Kept(r, k + 1);
            b'.holds == Won(b, t, ask).holds && b'.deleted == Won(b, t, ask).deleted && b'.asks == b.asks - {t}
  {
    if k > i {
      AskStands(r, i, k, t, ask);
    } else {
      NotAskedYet(r, k, t);
      var b := Kept(r, k);
      assert b.asks == b.asks - {t};
    }
  }

  lemma NotAskedYet(r: Run, k: nat, t: Thread)
    requires r.Valid() && k < |r.events| && (r.events[k].Acquire? || r.events[k].Delete?) && r.events[k].t == t
    ensures t !in Kept(r, k).asks
  {
    assert r.StepAt(k);
    BookAgrees(r, k);
    hide Kept;
  }

  /** What changes when t becomes an owner, alone or sharing, and that nothing else does. */
  ghost predicate Becomes(s: State, s': State, t: Thread, shared: bool) {
    && s'.deleted == s.deleted
    && (s'.exc == Some(t) <==> !shared) && (t in s'.shr <==> shared)
    && OthersSame(s, s', t)
  }

  ghost predicate OthersSame(s: State, s': State, t: Thread) {
    forall u | u != t :: (s'.exc == Some(u) <==> s.exc == Some(u)) && (u in s'.shr <==> u in s.shr)
  }

  /** A call that comes back with True has what it asked for: an acquire() makes the caller an owner, alone
      or sharing as asked, a delete() leaves the lock deleted; no other owner changes. */
  lemma TrueMeansOwned(r: Run, i: nat, k: nat, t: Thread, ask: Ask)
    requires r.Valid() && InCall(r, i, k, t, ask) && r.outs[k] == Acquired
    ensures var s, s' := r.states[k], r.states[k + 1];
            && t !in s'.calls && !s.deleted
            && if ask.deleting then s'.deleted && Free(s') else Becomes(s, s', t, ask.shared)
  {
    TrueIsNoted(r, i, k, t, ask);
    OutcomesAreFair(r, k);
    RunInv(r, k + 1);
    Reads(r, k, t);
    Reads(r, k + 1, t);
    hide Kept, r.Valid, InCall;
    forall u ensures u != t && !ask.deleting ==>
                       && (r.states[k + 1].exc == Some(u) <==> r.states[k].exc == Some(u))
                       && (u in r.states[k + 1].shr <==> u in r.states[k].shr)
    {
      Reads(r, k, u);
      Reads(r, k + 1, u);
    }
  }

  /** release() works for an owner and for nobody else. It takes the caller off the owners, whatever it
      owned, and leaves everything else about the owners and the waiting calls as it was. */
  lemma ReleaseGivesUp(r: Run, k: nat, t: Thread)
    requires r.Valid() && k < |r.events| && r.events[k] == Release(t)
    ensures var s, s' := r.states[k], r.states[k + 1];
            && (r.outs[k] == Returned <==> Owns(s, t))
            && (r.outs[k] == AssertionError <==> !Owns(s, t))
            && !Owns(s', t) && OthersSame(s, s', t)
            && s'.deleted == s.deleted && s'.calls.Keys == s.calls.Keys
  {
    OutcomesAreFair(r, k);
    assert Kept(r, k + 1) == Note(Kept(r, k), r.events[k], r.outs[k]);
    hide Kept, r.Valid;
    forall u ensures (u in r.states[k + 1].calls <==> u in r.states[k].calls) &&
                     (u != t ==> && (r.states[k + 1].exc == Some(u) <==> r.states[k].exc == Some(u))
                                 && (u in r.states[k + 1].shr <==> u in r.states[k].shr))
    {
      Reads(r, k, u);
      Reads(r, k + 1, u);
    }
    Reads(r, k, t);
    Reads(r, k + 1, t);
  }

  /** downgrade() works for an owner and for nobody else, and leaves the caller sharing. */
  lemma DowngradeShares(r: Run, k: nat, t: Thread)
    requires r.Valid() && k < |r.events| && r.events[k] == Downgrade(t)
    ensures var s, s' := r.states[k], r.states[k + 1];
            && (r.outs[k] == Returned <==> Owns(s, t))
            && (r.outs[k] == AssertionError <==> !Owns(s, t))
            && (Owns(s, t) ==> Becomes(s, s', t, true))
            && (!Owns(s, t) ==> s' == s)
  {
    OutcomesAreFair(r, k);
    assert r.StepAt(k);
    assert Kept(r, k + 1) == Note(Kept(r, k), r.events[k], r.outs[k]);
    hide Kept, r.Valid;
    forall u ensures u != t ==> && (r.states[k + 1].exc == Some(u) <==> r.states[k].exc == Some(u))
                                && (u in r.states[k + 1].shr <==> u in r.states[k].shr)
    {
      Reads(r, k, u);
      Reads(r, k + 1, u);
    }
    Reads(r, k, t);
    Reads(r, k + 1, t);
  }

  /** After a release that left no owner and no blocked call, whoever asks next gets the lock at once, in
      whatever mode and with whatever timeout. */
  lemma FreeLockIsTaken(r: Run, k: nat)
    requires r.Valid() && k < |r.events| && (r.events[k].Acquire? || r.events[k].Delete?)
    requires Free(r.states[k]) && r.states[k].queue == [] && !r.states[k].deleted
    ensures r.outs[k] == Acquired
  {
    OutcomesAreFair(r, k);
    BookAgrees(r, k);
    NothingLeftBehind(r, k);
    RunInv(r, k);
    PermitsIs(r.states[k], r.events[k].Acquire? && r.events[k].shared);
    hide Kept, r.Valid, Inv;
    assert Asks(r.states[k]) == map[];
  }

  // ----- mutual exclusion through outcomes -----

  /** The thread ends its ownership, or changes it. */
  predicate GivesUp(e: Event, t: Thread) {
    (e.Release? || e.Downgrade? || e.Delete?) && e.t == t
  }

  /** Once an owner, in whatever mode, a thread stays one until it gives up its ownership itself. */
  lemma {:induction false} OwnerStays(r: Run, i: nat, k: nat, t: Thread)
    requires r.Valid() && i <= k < |r.states| && Owns(r.states[i], t)
    requires forall m | i <= m < k :: !GivesUp(r.events[m], t)
    ensures r.states[k].exc == Some(t) <==> r.states[i].exc == Some(t)
    ensures t in r.states[k].shr <==> t in r.states[i].shr
    decreases k
  {
    if i < k {
      OwnerStays(r, i, k - 1, t);
      OwnerStaysOnce(r, k - 1, t);
    }
  }

  lemma OwnerStaysOnce(r: Run, m: nat, t: Thread)
    requires r.Valid() && m < |r.events| && Owns(r.states[m], t) && !GivesUp(r.events[m], t)
    ensures r.states[m + 1].exc == Some(t) <==> r.states[m].exc == Some(t)
    ensures t in r.states[m + 1].shr <==> t in r.states[m].shr
  {
    OutcomesAreFair(r, m);
    Reads(r, m, t);
    Reads(r, m + 1, t);
    OwnersDoNotAsk(r, m, t);
    assert Kept(r, m + 1) == Note(Kept(r, m), r.events[m], r.outs[m]);
    hide Kept, r.Valid;
  }

  lemma OwnersDoNotAsk(r: Run, m: nat, t: Thread)
    requires r.Valid() && m < |r.states| && Owns(r.states[m], t)
    ensures t !in Kept(r, m).asks
  {
    RunInv(r, m);
    Reads(r, m, t);
  }

  /** The thread an event is about. */
  predicate By(e: Event, u: Thread) {
    !e.NotifyTopmost? && e.t == u
  }

  /** From the moment when an acquire() of t comes back with True until t releases, downgrades or deletes
      the lock, t owns it as asked; no other thread gets it if t asked for it alone, and if t shares it no
      other thread gets it alone or deletes it. */
  lemma ExclusionByOutcomes(r: Run, i: nat, j: nat, k: nat, t: Thread, u: Thread, ask: Ask)
    requires r.Valid() && InCall(r, i, j, t, ask) && !ask.deleting && r.outs[j] == Acquired
    requires j < k < |r.events| && forall m | j < m < k :: !GivesUp(r.events[m], t)
    requires u != t && By(r.events[k], u) && r.outs[k] == Acquired
    ensures ask.shared && r.states[k + 1].exc != Some(u) && !r.states[k + 1].deleted
  {
    TrueMeansOwned(r, i, j, t, ask);
    OwnerStays(r, j + 1, k, t);
    OutcomesAreFair(r, k);
    Reads(r, k, t);
    Reads(r, k + 1, u);
    assert Kept(r, k + 1) == Note(Kept(r, k), r.events[k], r.outs[k]);
    DeletersAskAlone(r, k, u);
    if r.states[k].exc == Some(u) {
      MutualExclusion(r, k, u, t);
      assert false;
    }
    Reads(r, k, u);
    hide Kept, r.Valid, InCall;
  }

  lemma DeletersAskAlone(r: Run, k: nat, u: Thread)
    requires r.Valid() && k < |r.states|
    ensures u in Kept(r, k).asks && Kept(r, k).asks[u].deleting ==> !Kept(r, k).asks[u].shared
  {
    RunInv(r, k);
    BookAgrees(r, k);
  }
}
