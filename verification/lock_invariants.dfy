/** What every step of the shared lock keeps, for any number of threads and any interleaving. */
module LockInvariants {
  import opened Basics
  import opened LockSpec

  /** Condition a is served before condition b: more urgent or equally urgent, and of two
      exclusive requests of one priority the one that came first. */
  predicate Before(conds: map<CondRef, Cond>, a: CondRef, b: CondRef)
    requires a in conds && b in conds
  {
    && a != b
    && conds[a].prio <= conds[b].prio
    && (conds[a].prio == conds[b].prio && !conds[a].shared && !conds[b].shared ==> a < b)
  }

  /** The queue names each condition at most once and stands in service order. */
  ghost predicate Lined(q: seq<CondRef>, conds: map<CondRef, Cond>) {
    && (forall i | 0 <= i < |q| :: q[i] in conds)
    && (forall i, j | 0 <= i < j < |q| :: Before(conds, q[i], q[j]))
  }

  ghost predicate Members(q: seq<CondRef>, conds: map<CondRef, Cond>, next: CondRef) {
    forall c <- conds :: c in q && c < next
  }

  ghost predicate Joinables(joinable: map<int, CondRef>, conds: map<CondRef, Cond>) {
    forall p <- joinable :: joinable[p] in conds && conds[joinable[p]] == Cond(p, true)
  }

  ghost predicate Shape(s: State) {
    && Lined(s.queue, s.conds)
    && Members(s.queue, s.conds, s.next)
    && Joinables(s.joinable, s.conds)
  }

  /** Waiters wait on queued conditions, and nobody shares an exclusive one. */
  ghost predicate Callers(calls: map<Thread, Call>, conds: map<CondRef, Cond>) {
    && (forall t <- calls :: calls[t].cond in conds && (calls[t].deleting ==> !conds[calls[t].cond].shared))
    && (forall t, u | t in calls && u in calls ::
          calls[t].cond == calls[u].cond && !conds[calls[t].cond].shared ==> t == u)
  }

  /** Every queued condition has a waiting thread; `loose` holds the one being worked on. */
  ghost predicate Busy(calls: map<Thread, Call>, conds: map<CondRef, Cond>, loose: set<CondRef>) {
    forall c | c in conds && c !in loose :: HasWaiter(calls, c)
  }

  ghost predicate Owners(s: State) {
    && (s.exc.Some? ==> s.shr == {})
    && (s.deleted ==> Free(s))
    && (forall t <- s.calls :: !Owns(s, t))
  }

  /** Every thread waiting on condition c already has its notification. */
  ghost predicate Awake(calls: map<Thread, Call>, c: CondRef) {
    forall t <- calls :: calls[t].cond == c ==> calls[t].notified
  }

  ghost predicate NoLostWakeup(s: State) {
    !s.deleted && Free(s) && s.queue != [] ==> Awake(s.calls, s.queue[0])
  }

  ghost predicate DeletionAnnounced(s: State) {
    s.deleted ==> forall t <- s.calls :: s.calls[t].notified
  }

  ghost predicate Steady(s: State, loose: set<CondRef>) {
    Shape(s) && Callers(s.calls, s.conds) && Busy(s.calls, s.conds, loose) && Owners(s)
  }

  ghost predicate Inv(s: State) {
    Steady(s, {}) && NoLostWakeup(s) && DeletionAnnounced(s)
  }

  lemma InitInv()
    ensures Inv(Init())
  {
  }

  // ----- the queue operations -----

  lemma {:induction false} SlotSplits(q: seq<CondRef>, conds: map<CondRef, Cond>, prio: int)
    requires Lined(q, conds)
    ensures forall j | 0 <= j < Slot(q, conds, prio) :: conds[q[j]].prio <= prio
    ensures forall j | Slot(q, conds, prio) <= j < |q| :: conds[q[j]].prio > prio
  {
    if q != [] {
      if conds[q[0]].prio <= prio {
        assert Lined(q[1..], conds);
        SlotSplits(q[1..], conds, prio);
        assert forall j | 1 <= j < |q| :: q[j] == q[1..][j - 1];
      } else {
        forall j | 0 <= j < |q| ensures conds[q[j]].prio > prio {
          assert j > 0 ==> Before(conds, q[0], q[j]);
        }
      }
    }
  }

  lemma {:induction false} WithoutSplits(q: seq<CondRef>, c: CondRef) returns (k: nat)
    requires c in q
    ensures k < |q| && q[k] == c && c !in q[..k]
    ensures Without(q, c) == q[..k] + q[k + 1..]
  {
    if q[0] == c {
      k := 0;
    } else {
      var k' := WithoutSplits(q[1..], c);
      k := k' + 1;
      assert q[..k] == [q[0]] + q[1..][..k'];
    }
  }

  lemma InsertLined(q: seq<CondRef>, conds: map<CondRef, Cond>, i: nat, c: CondRef, cond: Cond)
    requires Lined(q, conds) && Members(q, conds, c) && i <= |q|
    requires forall j | 0 <= j < i :: conds[q[j]].prio <= cond.prio
    requires forall j | i <= j < |q| :: conds[q[j]].prio > cond.prio
    ensures Lined(q[..i] + [c] + q[i..], conds[c := cond])
  {
    var r, conds' := q[..i] + [c] + q[i..], conds[c := cond];
    forall a | 0 <= a < |r| ensures r[a] in conds' {
      assert a != i ==> r[a] == q[if a < i then a else a - 1];
    }
    forall a, b | 0 <= a < b < |r| ensures Before(conds', r[a], r[b]) {
      var x := if a < i then a else a - 1;
      var y := if b < i then b else b - 1;
      if a == i {
        assert r[b] == q[y] && q[y] in conds && q[y] < c;
      } else if b == i {
        assert r[a] == q[x] && q[x] in conds && q[x] < c;
      } else {
        assert r[a] == q[x] && r[b] == q[y] && q[x] in conds && q[y] in conds;
        assert Before(conds, q[x], q[y]) && q[x] < c && q[y] < c;
      }
    }
  }

  lemma RemoveLined(q: seq<CondRef>, conds: map<CondRef, Cond>, k: nat)
    requires Lined(q, conds) && k < |q|
    ensures Lined(q[..k] + q[k + 1..], conds - {q[k]})
  {
  }

  lemma PromoteLined(q: seq<CondRef>, conds: map<CondRef, Cond>, k: nat)
    requires Lined(q, conds) && k < |q|
    requires conds[q[k]] == Cond(conds[q[0]].prio, true)
    ensures Lined([q[k]] + (q[..k] + q[k + 1..]), conds)
  {
  }

  lemma InsertMembers(q: seq<CondRef>, conds: map<CondRef, Cond>, i: nat, c: CondRef, cond: Cond)
    requires Members(q, conds, c) && i <= |q|
    ensures Members(q[..i] + [c] + q[i..], conds[c := cond], c + 1)
  {
  }

  lemma EnqueueShape(s: State, shared: bool, prio: int)
    requires Shape(s)
    ensures Shape(Enqueue(s, shared, prio))
    ensures OnTop(Enqueue(s, shared, prio), s.next) || (s.queue != [] && OnTop(Enqueue(s, shared, prio), s.queue[0]))
  {
    var i := Slot(s.queue, s.conds, prio);
    SlotSplits(s.queue, s.conds, prio);
    InsertLined(s.queue, s.conds, i, s.next, Cond(prio, shared));
    InsertMembers(s.queue, s.conds, i, s.next, Cond(prio, shared));
    assert Joinables(Enqueue(s, shared, prio).joinable, s.conds[s.next := Cond(prio, shared)]);
  }

  lemma RemoveMembers(q: seq<CondRef>, conds: map<CondRef, Cond>, k: nat, next: CondRef)
    requires Members(q, conds, next) && k < |q|
    ensures Members(q[..k] + q[k + 1..], conds - {q[k]}, next)
  {
  }

  lemma DropShape(s: State, c: CondRef)
    requires Shape(s) && c in s.conds
    ensures Shape(Drop(s, c))
    ensures s.queue[0] != c ==> OnTop(Drop(s, c), s.queue[0])
  {
    if !HasWaiter(s.calls, c) {
      var k := WithoutSplits(s.queue, c);
      RemoveLined(s.queue, s.conds, k);
      RemoveMembers(s.queue, s.conds, k, s.next);
      assert Joinables(Drop(s, c).joinable, s.conds - {c});
    }
  }

  lemma PromoteShape(s: State, prio: int)
    requires Shape(s) && s.queue != [] && prio == s.conds[s.queue[0]].prio && prio in s.joinable
    ensures var c := s.joinable[prio];
            Shape(s.(queue := [c] + Without(s.queue, c), joinable := s.joinable - {prio}))
  {
    var c := s.joinable[prio];
    var k := WithoutSplits(s.queue, c);
    PromoteLined(s.queue, s.conds, k);
    var q := [c] + Without(s.queue, c);
    forall d | d in s.conds ensures d in q {
      assert d in s.queue[..k] + [c] + s.queue[k + 1..] by {
        assert s.queue == s.queue[..k] + [c] + s.queue[k + 1..];
      }
    }
  }

  // ----- who waits where -----

  lemma DropBusy(calls: map<Thread, Call>, conds: map<CondRef, Cond>, c: CondRef)
    requires Callers(calls, conds) && Busy(calls, conds, {c}) && !HasWaiter(calls, c)
    ensures Callers(calls, conds - {c}) && Busy(calls, conds - {c}, {})
  {
  }

  lemma DropKeeps(s: State, c: CondRef)
    requires Steady(s, {c}) && c in s.conds
    ensures Steady(Drop(s, c), {})
    ensures s.queue[0] != c ==> OnTop(Drop(s, c), s.queue[0])
  {
    DropShape(s, c);
    if !HasWaiter(s.calls, c) {
      DropBusy(s.calls, s.conds, c);
    }
  }

  lemma NotifiedKeeps(calls: map<Thread, Call>, conds: map<CondRef, Cond>, c: CondRef)
    requires Callers(calls, conds) && Busy(calls, conds, {})
    ensures Callers(Notified(calls, c), conds) && Busy(Notified(calls, c), conds, {})
    ensures Awake(Notified(calls, c), c)
    ensures forall d :: Awake(calls, d) ==> Awake(Notified(calls, c), d)
  {
    var r := Notified(calls, c);
    forall d | d in conds ensures HasWaiter(r, d) {
      assert HasWaiter(calls, d);
      var u :| u in calls && calls[u].cond == d;
      assert u in r && r[u].cond == d;
    }
  }

  lemma NotifyKeeps(s: State, c: CondRef)
    requires Steady(s, {})
    ensures Steady(Notify(s, c), {}) && Awake(Notify(s, c).calls, c)
    ensures DeletionAnnounced(s) ==> DeletionAnnounced(Notify(s, c))
  {
    NotifiedKeeps(s.calls, s.conds, c);
    assert forall t <- Notify(s, c).calls :: t in s.calls;
  }

  lemma GrownKeeps(calls: map<Thread, Call>, conds: map<CondRef, Cond>, c: CondRef, cond: Cond)
    requires Callers(calls, conds) && Busy(calls, conds, {}) && c !in conds
    ensures Callers(calls, conds[c := cond]) && Busy(calls, conds[c := cond], {c})
    ensures !HasWaiter(calls, c)
  {
  }

  lemma ParkedKeeps(calls: map<Thread, Call>, conds: map<CondRef, Cond>, t: Thread, call: Call)
    requires Callers(calls, conds) && Busy(calls, conds, {call.cond})
    requires t !in calls && call.cond in conds
    requires !conds[call.cond].shared ==> !HasWaiter(calls, call.cond)
    requires call.deleting ==> !conds[call.cond].shared
    ensures Callers(calls[t := call], conds) && Busy(calls[t := call], conds, {})
  {
    var r := calls[t := call];
    forall d | d in conds ensures HasWaiter(r, d) {
      if d == call.cond {
        assert r[t].cond == d;
      } else {
        assert HasWaiter(calls, d);
        var u :| u in calls && calls[u].cond == d;
        assert u in r && r[u].cond == d;
      }
    }
  }

  lemma UnparkedKeeps(calls: map<Thread, Call>, conds: map<CondRef, Cond>, t: Thread)
    requires Callers(calls, conds) && Busy(calls, conds, {}) && t in calls
    ensures Callers(calls - {t}, conds) && Busy(calls - {t}, conds, {calls[t].cond})
    ensures !conds[calls[t].cond].shared ==> !HasWaiter(calls - {t}, calls[t].cond)
  {
    var r := calls - {t};
    forall d | d in conds && d != calls[t].cond ensures HasWaiter(r, d) {
      assert HasWaiter(calls, d);
      var u :| u in calls && calls[u].cond == d;
      assert u in r && r[u].cond == d;
    }
  }

  // ----- one turn of the acquire loop -----

  /** Where thread t stands at the head of the loop, working on condition c. */
  ghost predicate AtLoop(s: State, t: Thread, c: CondRef, deleting: bool) {
    && Steady(s, {c})
    && c in s.conds && t !in s.calls && !Owns(s, t) && !s.deleted
    && (!s.conds[c].shared ==> !HasWaiter(s.calls, c))
    && (deleting ==> !s.conds[c].shared)
    && (Free(s) && s.queue[0] != c ==> Awake(s.calls, s.queue[0]))
  }

  lemma DeletedInv(s: State, t: Thread)
    requires Steady(s, {}) && s.exc == Some(t)
    ensures Inv(MarkDeleted(s))
  {
    var r := MarkDeleted(s);
    forall c | c in r.conds ensures HasWaiter(r.calls, c) {
      assert HasWaiter(s.calls, c);
      var u :| u in s.calls && s.calls[u].cond == c;
      assert u in r.calls && r.calls[u].cond == c;
    }
  }

  lemma AcquireKeeps(s: State, t: Thread, c: CondRef, deleting: bool)
    requires AtLoop(s, t, c, deleting)
    requires OnTop(s, c) && CanAcquire(s, s.conds[c].shared)
    ensures Inv(Finish(Drop(Own(s, t, s.conds[c].shared), c), deleting))
  {
    var s1 := Own(s, t, s.conds[c].shared);
    assert Steady(s1, {c});
    DropKeeps(s1, c);
    if deleting {
      DeletedInv(Drop(s1, c), t);
    }
  }

  lemma GiveUpKeeps(s: State, t: Thread, c: CondRef, deleting: bool)
    requires AtLoop(s, t, c, deleting)
    requires !(OnTop(s, c) && CanAcquire(s, s.conds[c].shared))
    ensures Inv(Drop(s, c))
  {
    DropKeeps(s, c);
  }

  lemma ParkKeeps(s: State, t: Thread, call: Call)
    requires AtLoop(s, t, call.cond, call.deleting)
    requires !(OnTop(s, call.cond) && CanAcquire(s, s.conds[call.cond].shared))
    ensures Inv(s.(calls := s.calls[t := call]))
  {
    ParkedKeeps(s.calls, s.conds, t, call);
  }

  lemma SettleKeeps(s: State, t: Thread, c: CondRef, timed: bool, deleting: bool, expired: bool)
    requires AtLoop(s, t, c, deleting)
    ensures Inv(Settle(s, t, c, timed, deleting, expired).0)
  {
    if OnTop(s, c) && CanAcquire(s, s.conds[c].shared) {
      AcquireKeeps(s, t, c, deleting);
    } else if timed && expired {
      GiveUpKeeps(s, t, c, deleting);
    } else {
      ParkKeeps(s, t, Call(c, false, timed, deleting));
    }
  }

  // ----- the six events -----

  lemma EnqueueAtLoop(s: State, t: Thread, shared: bool, prio: int, deleting: bool)
    requires Inv(s) && t !in s.calls && !Owns(s, t) && !s.deleted
    requires deleting ==> !shared
    ensures AtLoop(Enqueue(s, shared, prio), t, s.next, deleting)
  {
    EnqueueShape(s, shared, prio);
    GrownKeeps(s.calls, s.conds, s.next, Cond(prio, shared));
    assert Steady(Enqueue(s, shared, prio), {s.next});
  }

  lemma RequestKeeps(s: State, t: Thread, shared: bool, timeout: Option<real>, prio: int,
                     deleting: bool, expired: bool)
    requires Inv(s) && t !in s.calls
    requires deleting ==> !shared
    ensures Inv(Request(s, t, shared, timeout, prio, deleting, expired).0)
  {
    if s.deleted || Owns(s, t) {
    } else if s.queue == [] && CanAcquire(s, shared) {
      if deleting {
        DeletedInv(Own(s, t, shared), t);
      }
    } else if timeout.Some? && timeout.value < MIN_TIMEOUT {
    } else if shared && prio in s.joinable {
      SettleKeeps(s, t, s.joinable[prio], timeout.Some?, deleting, expired);
    } else {
      EnqueueAtLoop(s, t, shared, prio, deleting);
      SettleKeeps(Enqueue(s, shared, prio), t, s.next, timeout.Some?, deleting, expired);
    }
  }

  lemma ResumeKeeps(s: State, t: Thread, expired: bool)
    requires Inv(s) && t in s.calls
    ensures Inv(Resume(s, t, expired).0)
  {
    var call := s.calls[t];
    var s1 := s.(calls := s.calls - {t});
    UnparkedKeeps(s.calls, s.conds, t);
    assert Steady(s1, {call.cond});
    if s.deleted {
      DropKeeps(s1, call.cond);
    } else {
      SettleKeeps(s1, t, call.cond, call.timed, call.deleting, expired);
    }
  }

  lemma NotifyTopKeeps(s: State)
    requires Steady(s, {}) && DeletionAnnounced(s)
    ensures Inv(NotifyTop(s))
  {
    if s.queue != [] {
      NotifyKeeps(s, s.queue[0]);
      assert Joinables(NotifyTop(s).joinable, s.conds);
    }
  }

  lemma ReleaseKeeps(s: State, t: Thread)
    requires Inv(s) && t !in s.calls
    ensures Inv(ReleaseStep(s, t).0)
  {
    if s.exc == Some(t) {
      NotifyTopKeeps(s.(exc := None));
    } else if t in s.shr {
      var s1 := s.(shr := s.shr - {t});
      if s1.shr == {} {
        NotifyTopKeeps(s1);
      }
    }
  }

  lemma DowngradeKeeps(s: State, t: Thread)
    requires Inv(s) && t !in s.calls
    ensures Inv(DowngradeStep(s, t).0)
  {
    hide Members, Callers, Busy;
    if s.exc == Some(t) && s.queue != [] && s.conds[s.queue[0]].prio in s.joinable {
      var prio := s.conds[s.queue[0]].prio;
      var c := s.joinable[prio];
      PromoteShape(s, prio);
      NotifyKeeps(s.(exc := None, shr := s.shr + {t}, queue := [c] + Without(s.queue, c),
                     joinable := s.joinable - {prio}), c);
    }
  }

  lemma DeleteKeeps(s: State, t: Thread, timeout: Option<real>, prio: int, expired: bool)
    requires Inv(s) && t !in s.calls
    ensures Inv(DeleteStep(s, t, timeout, prio, expired).0)
  {
    if t in s.shr || s.deleted {
    } else if s.exc == Some(t) {
      DeletedInv(s, t);
    } else {
      RequestKeeps(s, t, false, timeout, prio, true, expired);
    }
  }

  /** Every enabled step keeps the invariant. */
  lemma StepKeeps(s: State, e: Event)
    requires Inv(s) && Enabled(s, e)
    ensures Inv(Step(s, e).0)
  {
    match e
    case Acquire(t, shared, timeout, prio, expired) => RequestKeeps(s, t, shared, timeout, prio, false, expired);
    case Delete(t, timeout, prio, expired) => DeleteKeeps(s, t, timeout, prio, expired);
    case Wake(t, expired) => ResumeKeeps(s, t, expired);
    case Release(t) => ReleaseKeeps(s, t);
    case Downgrade(t) => DowngradeKeeps(s, t);
    case NotifyTopmost => NotifyTopKeeps(s);
  }
}
