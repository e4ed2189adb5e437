/** The lock manager of the configuration daemon: who holds what, and whose request is pending
    (src/Ganeti/Locking/Allocation.hs, src/Ganeti/Locking/Waiting.hs).

    A request is refused, granted as a whole, or kept pending.  The daemon grants pending requests in
    some order after every change; here each of those grants is a step of its own. */
module LockManager {
  import opened Basics
  import opened LockOrder

  type Owner = nat

  datatype Mode = Shared | Exclusive

  /** A change to one lock; no mode means release. */
  datatype Request = Request(lock: Lock, mode: Option<Mode>)

  type Holding = map<Lock, Mode>

  datatype State = State(held: map<Owner, Holding>, pending: map<Owner, seq<Request>>)

  function Init(): (s: State) {
    State(map[], map[])
  }

  function Held(s: State, o: Owner): (h: Holding) {
    if o in s.held then s.held[o] else map[]
  }

  // ----- which requests are accepted -----

  /** The lock or the set it belongs to is held, exclusively if that is asked for. */
  predicate Covered(h: Holding, l: Lock, m: Mode) {
    || (l in h && (m.Shared? || h[l].Exclusive?))
    || (!IsSet(l) && Group(l) in h && (m.Shared? || h[Group(l)].Exclusive?))
  }

  /** No request below the highest lock held, unless it is covered. */
  predicate KeepsOrder(h: Holding, r: Request) {
    r.mode.Some? ==> Covered(h, r.lock, r.mode.value) || forall k <- h :: !Earlier(r.lock, k)
  }

  /** No exclusive request for a member of a set that is held shared. */
  predicate KeepsGroup(h: Holding, r: Request) {
    r.mode == Some(Exclusive) && !IsSet(r.lock) && Group(r.lock) in h ==> h[Group(r.lock)].Exclusive?
  }

  /** No two different changes to one lock. */
  predicate Coherent(reqs: seq<Request>) {
    forall i, j | 0 <= i < |reqs| && 0 <= j < |reqs| && reqs[i].lock == reqs[j].lock :: reqs[i] == reqs[j]
  }

  predicate Accepted(h: Holding, reqs: seq<Request>) {
    Coherent(reqs) && forall i | 0 <= i < |reqs| :: KeepsOrder(h, reqs[i]) && KeepsGroup(h, reqs[i])
  }

  // ----- who blocks whom -----

  predicate Clash(a: Lock, m: Mode, b: Lock, n: Mode) {
    Overlap(a, b) && (m.Exclusive? || n.Exclusive?)
  }

  /** What somebody holds stands in the way of the request. */
  ghost predicate Blocks(h: Holding, r: Request) {
    r.mode.Some? && exists k <- h :: Clash(r.lock, r.mode.value, k, h[k])
  }

  ghost predicate WaitsFor(s: State, o: Owner, reqs: seq<Request>, q: Owner) {
    q != o && q in s.held && exists i | 0 <= i < |reqs| :: Blocks(s.held[q], reqs[i])
  }

  ghost function Blockers(s: State, o: Owner, reqs: seq<Request>): (r: set<Owner>) {
    set q | q in s.held && WaitsFor(s, o, reqs, q)
  }

  // ----- steps -----

  function Apply(h: Holding, r: Request): (r': Holding) {
    if r.mode.Some? then h[r.lock := r.mode.value] else h - {r.lock}
  }

  function Granted(h: Holding, reqs: seq<Request>): (r: Holding) {
    if reqs == [] then h else Apply(Granted(h, reqs[..|reqs| - 1]), reqs[|reqs| - 1])
  }

  datatype Event =
    | UpdateWaiting(o: Owner, reqs: seq<Request>)    // updateLocksWaiting: keeps the request if it is blocked
    | Update(o: Owner, reqs: seq<Request>)           // updateLocks: now or not at all
    | Revisit(o: Owner)                              // tries a pending request again
    | Drop(o: Owner)                                 // removePendingRequest

  datatype Answer = Bad | Ok | Blocked

  predicate Fulfilled(h: Holding, reqs: seq<Request>) {
    forall i | 0 <= i < |reqs| ::
      if reqs[i].mode.Some? then reqs[i].lock in h && h[reqs[i].lock] == reqs[i].mode.value else reqs[i].lock !in h
  }

  /** Allocation.updateLocks: the new state only if nobody is in the way. */
  ghost function Allocate(s: State, o: Owner, reqs: seq<Request>): (r: (State, Answer)) {
    if !Accepted(Held(s, o), reqs) then (s, Bad)
    else if Blockers(s, o, reqs) != {} then (s, Blocked)
    else (s.(held := s.held[o := Granted(Held(s, o), reqs)]), Ok)
  }

  ghost function Step(s: State, e: Event): (r: (State, Answer)) {
    match e
    case UpdateWaiting(o, reqs) =>
      if o in s.pending then (s, if s.pending[o] == reqs then Blocked else Bad)
      else if Fulfilled(Held(s, o), reqs) then (s, Ok)
      else
        var (s', answer) := Allocate(s, o, reqs);
        (if answer == Blocked then s'.(pending := s'.pending[o := reqs]) else s', answer)
    case Update(o, reqs) =>
      if o in s.pending then (s, Bad)
      else if Fulfilled(Held(s, o), reqs) then (s, Ok)
      else Allocate(s, o, reqs)
    case Revisit(o) =>
      if o !in s.pending then (s, Ok)
      else
        var (s', answer) := Allocate(s, o, s.pending[o]);
        (if answer == Ok then s'.(pending := s'.pending - {o}) else s', answer)
    case Drop(o) => (s.(pending := s.pending - {o}), Ok)
  }

  // ----- what every step keeps -----

  ghost predicate Compatible(g: Holding, h: Holding) {
    forall k, l | k in g && l in h :: !Clash(k, g[k], l, h[l])
  }

  /** Locks of different owners never clash, and what is pending was accepted for what its owner holds. */
  ghost predicate Inv(s: State) {
    && (forall p, q | p in s.held && q in s.held && p != q :: Compatible(s.held[p], s.held[q]))
    && (forall o <- s.pending :: Accepted(Held(s, o), s.pending[o]))
  }

  lemma {:induction false} GrantedIs(h: Holding, reqs: seq<Request>, k: Lock)
    requires k in Granted(h, reqs)
    ensures || (k in h && Granted(h, reqs)[k] == h[k])
            || (exists i | 0 <= i < |reqs| :: reqs[i] == Request(k, Some(Granted(h, reqs)[k])))
  {
    if reqs != [] {
      var init, r := reqs[..|reqs| - 1], reqs[|reqs| - 1];
      if k != r.lock {
        GrantedIs(h, init, k);
        if i :| 0 <= i < |init| && init[i] == Request(k, Some(Granted(h, init)[k])) {
          assert reqs[i] == init[i];
        }
      } else {
        assert reqs[|reqs| - 1] == r;
      }
    }
  }

  /** What is granted does not clash with what somebody else holds. */
  lemma GrantCompatible(h: Holding, reqs: seq<Request>, g: Holding)
    requires Compatible(h, g) && forall i | 0 <= i < |reqs| :: !Blocks(g, reqs[i])
    ensures Compatible(Granted(h, reqs), g) && Compatible(g, Granted(h, reqs))
  {
    var h' := Granted(h, reqs);
    forall k, l | k in h' && l in g ensures !Clash(k, h'[k], l, g[l]) {
      GrantedIs(h, reqs, k);
      if i :| 0 <= i < |reqs| && reqs[i] == Request(k, Some(h'[k])) {
        assert !Blocks(g, reqs[i]);
      }
    }
  }

  lemma AllocateKeeps(s: State, o: Owner, reqs: seq<Request>)
    requires Inv(s) && (o in s.pending ==> s.pending[o] == reqs)
    ensures var (s', answer) := Allocate(s, o, reqs);
            && s'.pending == s.pending
            && (answer == Ok ==> Inv(s'.(pending := s'.pending - {o})))
            && (answer != Ok ==> s' == s)
            && (answer == Blocked ==> Accepted(Held(s, o), reqs) && Blockers(s, o, reqs) != {})
  {
    hide Granted, Accepted, Clash, Blocks;
    var (s', answer) := Allocate(s, o, reqs);
    if answer == Ok {
      var h := Held(s, o);
      forall q | q in s.held && q != o
        ensures Compatible(Granted(h, reqs), s.held[q]) && Compatible(s.held[q], Granted(h, reqs))
      {
        assert q !in Blockers(s, o, reqs);
        GrantCompatible(h, reqs, s.held[q]);
      }
    }
  }

  lemma StepKeeps(s: State, e: Event)
    requires Inv(s)
    ensures Inv(Step(s, e).0)
  {
    hide Allocate, Accepted, Compatible, Blockers;
    match e
    case UpdateWaiting(o, reqs) =>
      if o !in s.pending {
        AllocateKeeps(s, o, reqs);
        assert s.pending - {o} == s.pending;
      }
    case Update(o, reqs) =>
      if o !in s.pending {
        AllocateKeeps(s, o, reqs);
        assert s.pending - {o} == s.pending;
      }
    case Revisit(o) =>
      if o in s.pending {
        AllocateKeeps(s, o, s.pending[o]);
      }
    case Drop(o) =>
  }

  ghost function After(events: seq<Event>): (s: State) {
    if events == [] then Init() else Step(After(events[..|events| - 1]), events[|events| - 1]).0
  }

  lemma {:induction false} RunInv(events: seq<Event>)
    ensures Inv(After(events))
  {
    if events != [] {
      RunInv(events[..|events| - 1]);
      StepKeeps(After(events[..|events| - 1]), events[|events| - 1]);
    }
  }

  // ----- what the answers mean -----

  /** The request says something about the lock. */
  ghost predicate Mentions(reqs: seq<Request>, l: Lock) {
    exists i | 0 <= i < |reqs| :: reqs[i].lock == l
  }

  /** The lock is held as before, or not held as before. */
  predicate SameAt(h: Holding, h': Holding, l: Lock) {
    (l in h' <==> l in h) && (l in h ==> h'[l] == h[l])
  }

  /** Locks that the request does not mention are held as before. */
  ghost predicate Spared(h: Holding, h': Holding, reqs: seq<Request>) {
    forall l | !Mentions(reqs, l) :: SameAt(h, h', l)
  }

  lemma {:induction false} GrantedExactly(h: Holding, reqs: seq<Request>)
    requires Coherent(reqs)
    ensures Fulfilled(Granted(h, reqs), reqs) && Spared(h, Granted(h, reqs), reqs)
  {
    if reqs != [] {
      var init, r := reqs[..|reqs| - 1], reqs[|reqs| - 1];
      GrantedExactly(h, init);
      var h1 := Granted(h, init);
      forall i | 0 <= i < |reqs|
        ensures if reqs[i].mode.Some? then reqs[i].lock in Apply(h1, r) && Apply(h1, r)[reqs[i].lock] == reqs[i].mode.value
                else reqs[i].lock !in Apply(h1, r)
      {
        assert reqs[i].lock == r.lock ==> reqs[i] == r;
        assert i < |init| ==> reqs[i] == init[i];
      }
      forall l | Mentions(init, l) ensures Mentions(reqs, l) {
        var i :| 0 <= i < |init| && init[i].lock == l;
        assert reqs[i].lock == l;
      }
      forall l | !Mentions(reqs, l) ensures SameAt(h, Apply(h1, r), l) {
        assert reqs[|reqs| - 1].lock != l;
      }
    }
  }

  /** The owner holds each lock exactly as asked, holds none that was to be released and keeps all others;
      nobody else notices. */
  ghost predicate Done(s: State, s': State, o: Owner, reqs: seq<Request>) {
    && Fulfilled(Held(s', o), reqs)
    && Spared(Held(s, o), Held(s', o), reqs)
    && forall q | q != o :: Held(s', q) == Held(s, q)
  }

  /** What an event asks for: a request of its own, or the one that is pending. */
  ghost function AskedBy(s: State, e: Event): (r: seq<Request>) {
    match e
    case UpdateWaiting(_, reqs) => reqs
    case Update(_, reqs) => reqs
    case Revisit(o) => if o in s.pending then s.pending[o] else []
    case Drop(_) => []
  }

  lemma AllocateDoes(s: State, o: Owner, reqs: seq<Request>)
    ensures var (s', answer) := Allocate(s, o, reqs);
            s'.pending == s.pending && if answer == Ok then Done(s, s', o, reqs) else s' == s
  {
    hide Blockers, Fulfilled, Spared, KeepsOrder, KeepsGroup, Granted, Coherent;
    if Accepted(Held(s, o), reqs) {
      GrantedExactly(Held(s, o), reqs);
    }
  }

  /** An answer of Ok means that the request is carried out, all of it and nothing but it, and that nothing
      of the owner is pending any more; any other answer leaves everybody's locks alone, and a request is
      kept pending exactly when the owner was told to wait. */
  lemma AnswerMeans(s: State, e: Event)
    ensures var (s', answer) := Step(s, e);
            && (answer == Ok ==> Done(s, s', e.o, AskedBy(s, e)) && s'.pending == s.pending - {e.o})
            && (answer != Ok ==> s'.held == s.held)
            && (answer == Bad ==> s' == s)
            && (answer == Blocked ==>
                  s'.pending == if e.UpdateWaiting? then s.pending[e.o := e.reqs] else s.pending)
  {
    hide Allocate, Fulfilled, Spared;
    AllocateDoes(s, e.o, AskedBy(s, e));
    assert e.o !in s.pending ==> s.pending - {e.o} == s.pending;
    assert e.o in s.pending ==> s.pending[e.o := s.pending[e.o]] == s.pending;
    SparedSame(Held(s, e.o), AskedBy(s, e));
    FulfilledNothing(Held(s, e.o));
  }

  lemma SparedSame(h: Holding, reqs: seq<Request>)
    ensures Spared(h, h, reqs)
  {
  }

  lemma FulfilledNothing(h: Holding)
    ensures Fulfilled(h, [])
  {
  }

  /** Somebody else holds the lock that is asked for, or the set around it, or if it is a set one of its
      members, and one of the two wants it alone. */
  ghost predicate Hindered(s: State, o: Owner, r: Request) {
    r.mode.Some? && exists q, l :: q != o && l in Held(s, q) && HindersAt(r.lock, r.mode.value, l, Held(s, q)[l])
  }

  predicate HindersAt(a: Lock, m: Mode, b: Lock, n: Mode) {
    && (a == b || (a.level == b.level && (a.name == LOCKSET_NAME || b.name == LOCKSET_NAME)))
    && !(m.Shared? && n.Shared?)
  }

  lemma HinderedIs(s: State, o: Owner, reqs: seq<Request>)
    ensures Blockers(s, o, reqs) != {} <==> exists r <- reqs :: Hindered(s, o, r)
  {
    if q :| q in Blockers(s, o, reqs) {
      var i :| 0 <= i < |reqs| && Blocks(s.held[q], reqs[i]);
      var l :| l in s.held[q] && Clash(reqs[i].lock, reqs[i].mode.value, l, s.held[q][l]);
      assert l in Held(s, q) && HindersAt(reqs[i].lock, reqs[i].mode.value, l, Held(s, q)[l]);
      assert reqs[i] in reqs && Hindered(s, o, reqs[i]);
    }
    if r :| r in reqs && Hindered(s, o, r) {
      var q, l :| q != o && l in Held(s, q) && HindersAt(r.lock, r.mode.value, l, Held(s, q)[l]);
      var i :| 0 <= i < |reqs| && reqs[i] == r;
      assert Clash(r.lock, r.mode.value, l, s.held[q][l]);
      assert Blocks(s.held[q], reqs[i]);
      assert q in Blockers(s, o, reqs);
    }
  }

  /** An owner that waits for nothing gets an acceptable request exactly when nobody hinders it, and is told
      to wait otherwise; what it has already is granted without further questions. */
  lemma GrantedUnlessHindered(s: State, e: Event)
    requires (e.Update? || e.UpdateWaiting?) && e.o !in s.pending
    ensures var h, answer := Held(s, e.o), Step(s, e).1;
            && (Fulfilled(h, e.reqs) ==> answer == Ok)
            && (!Fulfilled(h, e.reqs) && !Accepted(h, e.reqs) ==> answer == Bad)
            && (!Fulfilled(h, e.reqs) && Accepted(h, e.reqs) ==>
                  answer == if exists r <- e.reqs :: Hindered(s, e.o, r) then Blocked else Ok)
  {
    HinderedIs(s, e.o, e.reqs);
    hide Fulfilled, Accepted, Blockers, Hindered;
  }

  /** A pending request is granted as soon as nobody hinders it. */
  lemma PendingIsGranted(events: seq<Event>, o: Owner)
    requires o in After(events).pending
    ensures var s := After(events);
            Step(s, Revisit(o)).1 == if exists r <- s.pending[o] :: Hindered(s, o, r) then Blocked else Ok
  {
    RunInv(events);
    HinderedIs(After(events), o, After(events).pending[o]);
    hide After, Blockers, Hindered, Accepted;
  }

  /** In every run: what one owner holds alone nobody else holds in any way, neither the lock itself nor its
      set nor, if it is a set, any member. */
  lemma MutualExclusion(events: seq<Event>, p: Owner, q: Owner, k: Lock, l: Lock)
    requires p != q && k in Held(After(events), p) && l in Held(After(events), q)
    ensures !HindersAt(k, Held(After(events), p)[k], l, Held(After(events), q)[l])
  {
    RunInv(events);
    var s := After(events);
    hide After;
    assert Compatible(s.held[p], s.held[q]);
    assert !Clash(k, s.held[p][k], l, s.held[q][l]);
  }

  /** The request gives a lock back, or keeps sharing one that is held. */
  predicate LetsGo(h: Holding, r: Request) {
    r.mode.None? || (r.mode == Some(Shared) && r.lock in h)
  }

  /** Releasing locks and sharing what was held alone cannot fail for an owner that waits for nothing. */
  lemma LettingGoSucceeds(events: seq<Event>, e: Event)
    requires (e.Update? || e.UpdateWaiting?) && e.o !in After(events).pending
    requires Coherent(e.reqs) && forall r <- e.reqs :: LetsGo(Held(After(events), e.o), r)
    ensures Step(After(events), e).1 == Ok
  {
    RunInv(events);
    var s, h := After(events), Held(After(events), e.o);
    hide After;
    forall r <- e.reqs ensures !Hindered(s, e.o, r) {
    }
    assert Accepted(h, e.reqs) by {
      forall i | 0 <= i < |e.reqs| ensures KeepsOrder(h, e.reqs[i]) && KeepsGroup(h, e.reqs[i]) {
        assert e.reqs[i] in e.reqs;
      }
    }
    GrantedUnlessHindered(s, e);
  }

  // ----- what an owner holds is what was granted to it -----

  /** The request that a step grants to the owner. */
  ghost function GrantAt(s: State, e: Event, o: Owner): (r: seq<Request>) {
    if e.o == o && Step(s, e).1 == Ok then AskedBy(s, e) else []
  }

  /** Everything granted to the owner since point k, in order. */
  ghost function GrantsSince(events: seq<Event>, k: nat, o: Owner): (r: seq<Request>)
    requires k <= |events|
    decreases |events|
  {
    if |events| == k then []
    else
      var init := events[..|events| - 1];
      GrantsSince(init, k, o) + GrantAt(After(init), events[|events| - 1], o)
  }

  lemma {:induction false} GrantedAlready(h: Holding, reqs: seq<Request>)
    requires Fulfilled(h, reqs)
    ensures Granted(h, reqs) == h
  {
    if reqs != [] {
      var init := reqs[..|reqs| - 1];
      assert forall i | 0 <= i < |init| :: init[i] == reqs[i];
      GrantedAlready(h, init);
      var r := reqs[|reqs| - 1];
      assert Apply(h, r) == h;
    }
  }

  lemma {:induction false} GrantedConcat(h: Holding, a: seq<Request>, b: seq<Request>)
    ensures Granted(h, a + b) == Granted(Granted(h, a), b)
    decreases |b|
  {
    if b == [] {
      assert a + b == a;
    } else {
      var init := b[..|b| - 1];
      assert (a + b)[..|a + b| - 1] == a + init;
      GrantedConcat(h, a, init);
    }
  }

  lemma StepGrants(s: State, e: Event, o: Owner)
    ensures Held(Step(s, e).0, o) == Granted(Held(s, o), GrantAt(s, e, o))
  {
    hide Blockers, Accepted;
    if Fulfilled(Held(s, e.o), AskedBy(s, e)) {
      GrantedAlready(Held(s, e.o), AskedBy(s, e));
    }
    hide Fulfilled, Granted;
    assert Granted(Held(s, o), []) == Held(s, o) by {
      GrantedNothing(Held(s, o));
    }
  }

  lemma GrantedNothing(h: Holding)
    ensures Granted(h, []) == h
  {
  }

  /** In every run an owner holds what it held at point k, changed by what was granted to it since. */
  lemma {:induction false} HeldIsGranted(events: seq<Event>, k: nat, o: Owner)
    requires k <= |events|
    ensures Held(After(events), o) == Granted(Held(After(events[..k]), o), GrantsSince(events, k, o))
    decreases |events|
  {
    hide Step, Held, Granted, GrantAt;
    if |events| == k {
      assert events[..k] == events;
      GrantedNothing(Held(After(events), o));
    } else {
      var init, e := events[..|events| - 1], events[|events| - 1];
      assert init[..k] == events[..k];
      HeldIsGranted(init, k, o);
      StepGrants(After(init), e, o);
      GrantedConcat(Held(After(events[..k]), o), GrantsSince(init, k, o), GrantAt(After(init), e, o));
    }
  }

  // ----- no deadlock -----

  /** The owner's pending request waits for the other one. */
  ghost predicate Edge(s: State, o: Owner, q: Owner) {
    o in s.pending && WaitsFor(s, o, s.pending[o], q)
  }

  /** Each one waits for the next, and the last one for the first. */
  ghost predicate Circle(s: State, os: seq<Owner>) {
    && |os| > 0
    && (forall i | 0 <= i < |os| - 1 :: Edge(s, os[i], os[i + 1]))
    && Edge(s, os[|os| - 1], os[0])
  }

  /** The request asks for a lock exclusively that its owner holds shared. */
  predicate Upgrade(h: Holding, r: Request) {
    r.mode == Some(Exclusive) && r.lock in h && h[r.lock].Shared?
  }

  /** The owner has a pending request in which nothing is upgraded. */
  ghost predicate PlainlyWaits(s: State, o: Owner) {
    o in s.pending && forall r <- s.pending[o] :: !Upgrade(Held(s, o), r)
  }

  /** The request asks for all or a part of the lock exclusively. */
  predicate Takes(r: Request, l: Lock) {
    r.mode == Some(Exclusive) && Overlap(r.lock, l)
  }

  /** The first owner waits to upgrade a lock; the second one holds some of that lock and waits for some
      of it exclusively. */
  ghost predicate JammedOn(s: State, o: Owner, q: Owner, r: Request) {
    && o != q && o in s.pending && r in s.pending[o] && Upgrade(Held(s, o), r)
    && q in s.held && (exists k <- s.held[q] :: Overlap(r.lock, k))
    && q in s.pending && exists r' <- s.pending[q] :: Takes(r', r.lock)
  }

  ghost predicate Jammed(s: State, o: Owner, q: Owner) {
    exists r :: JammedOn(s, o, q, r)
  }

  lemma JamIsCircle(s: State, o: Owner, q: Owner)
    requires Jammed(s, o, q)
    ensures Circle(s, [o, q])
  {
    var r :| JammedOn(s, o, q, r);
    var k :| k in s.held[q] && Overlap(r.lock, k);
    var r' :| r' in s.pending[q] && Takes(r', r.lock);
    assert Clash(r.lock, Exclusive, k, s.held[q][k]) && Clash(r'.lock, Exclusive, r.lock, Shared);
    assert Blocks(s.held[q], r) && Blocks(s.held[o], r');
    assert WaitsFor(s, o, s.pending[o], q) && WaitsFor(s, q, s.pending[q], o);
  }

  /** A request of o that q blocks. */
  ghost predicate IsBlocked(s: State, o: Owner, q: Owner, r: Request) {
    o in s.pending && r in s.pending[o] && q != o && q in s.held && Blocks(s.held[q], r)
  }

  lemma BlockedRequest(s: State, o: Owner, q: Owner) returns (r: Request)
    requires Edge(s, o, q)
    ensures IsBlocked(s, o, q, r)
  {
    var reqs := s.pending[o];
    var i :| 0 <= i < |reqs| && Blocks(s.held[q], reqs[i]);
    r := reqs[i];
  }

  /** A request that somebody else blocks is not covered, so it is above everything its owner holds. */
  lemma BlockedIsHighest(h: Holding, g: Holding, r: Request, k: Lock)
    requires Compatible(h, g) && Blocks(g, r) && KeepsOrder(h, r) && k in h
    ensures !Covered(h, r.lock, r.mode.value) && !Earlier(r.lock, k)
  {
    var l :| l in g && Clash(r.lock, r.mode.value, l, g[l]);
    assert r.lock in h ==> !Clash(r.lock, h[r.lock], l, g[l]);
    assert Group(r.lock) in h ==> !Clash(Group(r.lock), h[Group(r.lock)], l, g[l]);
  }

  /** Along an edge to somebody who waits as well, the lock waited for moves strictly up, or the other
      one waits to upgrade what is in the way. */
  ghost predicate Climbs(h: Holding, r: Request, r': Request) {
    Earlier(r.lock, r'.lock) || (Upgrade(h, r') && Takes(r, r'.lock))
  }

  lemma EdgeClimbs(h: Holding, g: Holding, r: Request, r': Request)
    requires Blocks(h, r) && Compatible(h, g) && Blocks(g, r') && KeepsOrder(h, r') && KeepsGroup(h, r')
    ensures Climbs(h, r, r')
  {
    var k :| k in h && Clash(r.lock, r.mode.value, k, h[k]);
    var w := r'.lock;
    BlockedIsHighest(h, g, r', k);
    EarlierTotal(w, k);
    assert IsSet(k) && w.level == k.level ==> Group(w) == k;
  }

  function Next(n: nat, i: nat): (j: nat)
    requires i < n
    ensures j < n
  {
    if i + 1 < n then i + 1 else 0
  }

  /** What each owner of the circle waits for. */
  ghost predicate Round(s: State, os: seq<Owner>, ws: seq<Request>) {
    |os| == |ws| > 0 && forall i | 0 <= i < |os| :: IsBlocked(s, os[i], os[Next(|os|, i)], ws[i])
  }

  lemma {:induction false} CircleRequests(s: State, os: seq<Owner>, n: nat) returns (ws: seq<Request>)
    requires Circle(s, os) && n <= |os|
    ensures |ws| == n && forall i | 0 <= i < n :: IsBlocked(s, os[i], os[Next(|os|, i)], ws[i])
  {
    hide IsBlocked, Edge;
    ws := [];
    if n > 0 {
      ws := CircleRequests(s, os, n - 1);
      var r := BlockedRequest(s, os[n - 1], os[Next(|os|, n - 1)]);
      ws := ws + [r];
    }
  }

  lemma RoundClimbs(s: State, os: seq<Owner>, ws: seq<Request>, i: nat)
    requires Inv(s) && Round(s, os, ws) && i < |os|
    ensures var j := Next(|os|, i); os[j] in s.held && Climbs(s.held[os[j]], ws[i], ws[j])
  {
    hide Blocks, Climbs, KeepsOrder, KeepsGroup, Clash;
    var j := Next(|os|, i);
    var t := Next(|os|, j);
    assert IsBlocked(s, os[i], os[j], ws[i]) && IsBlocked(s, os[j], os[t], ws[j]);
    var k :| 0 <= k < |s.pending[os[j]]| && s.pending[os[j]][k] == ws[j];
    EdgeClimbs(s.held[os[j]], s.held[os[t]], ws[i], ws[j]);
  }

  /** Levels cannot only rise around a circle. */
  lemma {:induction false} LevelsRise(ws: seq<Request>, i: nat, j: nat)
    requires i <= j < |ws| && forall k | 0 <= k < |ws| :: ws[k].lock.level <= ws[Next(|ws|, k)].lock.level
    ensures ws[i].lock.level <= ws[j].lock.level
    decreases j
  {
    if i < j {
      LevelsRise(ws, i, j - 1);
      assert Next(|ws|, j - 1) == j;
    }
  }

  lemma OneLevel(ws: seq<Request>, i: nat, j: nat)
    requires i < |ws| && j < |ws| && forall k | 0 <= k < |ws| :: ws[k].lock.level <= ws[Next(|ws|, k)].lock.level
    ensures ws[i].lock.level == ws[j].lock.level
  {
    var n := |ws| - 1;
    assert Next(|ws|, n) == 0;
    LevelsRise(ws, 0, i);
    LevelsRise(ws, 0, j);
    LevelsRise(ws, i, n);
    LevelsRise(ws, j, n);
  }

  predicate AtMost(a: Lock, b: Lock) {
    a == b || Earlier(a, b)
  }

  lemma AtMostTrans(a: Lock, b: Lock, c: Lock)
    requires AtMost(a, b) && AtMost(b, c)
    ensures AtMost(a, c) && (a == c ==> b == c)
  {
    if Earlier(a, b) && Earlier(b, c) {
      EarlierTrans(a, b, c);
    }
    EarlierTotal(a, b);
    EarlierTotal(a, c);
  }

  lemma {:induction false} LocksRise(ws: seq<Request>, i: nat, j: nat)
    requires i <= j < |ws| && forall k | 0 <= k < |ws| :: AtMost(ws[k].lock, ws[Next(|ws|, k)].lock)
    ensures AtMost(ws[i].lock, ws[j].lock)
    decreases j
  {
    hide Earlier;
    if i < j {
      LocksRise(ws, i, j - 1);
      assert Next(|ws|, j - 1) == j;
      AtMostTrans(ws[i].lock, ws[j - 1].lock, ws[j].lock);
    }
  }

  lemma OneLock(ws: seq<Request>, i: nat)
    requires i < |ws| && forall k | 0 <= k < |ws| :: AtMost(ws[k].lock, ws[Next(|ws|, k)].lock)
    ensures ws[i].lock == ws[0].lock
  {
    hide AtMost;
    var n := |ws| - 1;
    assert Next(|ws|, n) == 0;
    LocksRise(ws, 0, i);
    LocksRise(ws, i, n);
    AtMostTrans(ws[i].lock, ws[n].lock, ws[0].lock);
    AtMostTrans(ws[0].lock, ws[i].lock, ws[0].lock);
  }

  /** Where a circle does not climb, the owner in the way waits to upgrade and the one before it holds
      some of that lock. */
  lemma JamAt(s: State, os: seq<Owner>, ws: seq<Request>, i: nat, k: Lock)
    requires Inv(s) && Round(s, os, ws) && i < |os|
    requires !Earlier(ws[i].lock, ws[Next(|os|, i)].lock)
    requires os[i] in s.held && k in s.held[os[i]] && Overlap(ws[Next(|os|, i)].lock, k)
    ensures Jammed(s, os[Next(|os|, i)], os[i])
  {
    hide Overlap, Earlier, Inv, Blocks;
    var j := Next(|os|, i);
    RoundClimbs(s, os, ws, i);
    assert IsBlocked(s, os[i], os[j], ws[i]) && IsBlocked(s, os[j], os[Next(|os|, j)], ws[j]);
    assert JammedOn(s, os[j], os[i], ws[j]);
  }

  function Previous(n: nat, i: nat): (h: nat)
    requires i < n
    ensures h < n && Next(n, h) == i
  {
    if i == 0 then n - 1 else i - 1
  }

  /** Steps downwards lead from a member to its lock set. */
  lemma DownwardJam(s: State, os: seq<Owner>, ws: seq<Request>, i: nat)
    requires Inv(s) && Round(s, os, ws) && i < |os|
    requires !AtMost(ws[i].lock, ws[Next(|os|, i)].lock)
    ensures Jammed(s, os[Next(|os|, i)], os[i])
  {
    hide Inv, Jammed;
    var j, h := Next(|os|, i), Previous(|os|, i);
    forall k | 0 <= k < |ws| ensures ws[k].lock.level <= ws[Next(|ws|, k)].lock.level {
      RoundClimbs(s, os, ws, k);
    }
    OneLevel(ws, h, j);
    RoundClimbs(s, os, ws, i);
    assert IsSet(ws[j].lock);
    assert IsBlocked(s, os[h], os[i], ws[h]);
    var k :| k in s.held[os[i]] && Clash(ws[h].lock, ws[h].mode.value, k, s.held[os[i]][k]);
    JamAt(s, os, ws, i, k);
  }

  lemma LevelJam(s: State, os: seq<Owner>, ws: seq<Request>)
    requires Inv(s) && Round(s, os, ws) && forall k | 0 <= k < |ws| :: AtMost(ws[k].lock, ws[Next(|ws|, k)].lock)
    ensures Jammed(s, os[Next(|os|, 0)], os[0])
  {
    hide Inv, Jammed, AtMost;
    var j, h := Next(|os|, 0), Previous(|os|, 0);
    OneLock(ws, j);
    OneLock(ws, h);
    EarlierTotal(ws[0].lock, ws[0].lock);
    RoundClimbs(s, os, ws, h);
    JamAt(s, os, ws, 0, ws[0].lock);
  }

  /** Every circle contains two owners that jam each other. */
  lemma CircleIsJam(s: State, os: seq<Owner>) returns (o: Owner, q: Owner)
    requires Inv(s) && Circle(s, os)
    ensures o in os && q in os && Jammed(s, o, q)
  {
    hide Inv, Jammed, AtMost, IsBlocked, Edge;
    var ws := CircleRequests(s, os, |os|);
    if i :| 0 <= i < |ws| && !AtMost(ws[i].lock, ws[Next(|ws|, i)].lock) {
      DownwardJam(s, os, ws, i);
      o, q := os[Next(|os|, i)], os[i];
    } else {
      LevelJam(s, os, ws);
      o, q := os[Next(|os|, 0)], os[0];
    }
  }

  /** After any sequence of requests: owners wait in a circle exactly when one of them waits to upgrade a
      lock, while another one holds some of it and waits for some of it exclusively. */
  lemma DeadlockedExactlyWhenJammed(events: seq<Event>)
    ensures (exists os :: Circle(After(events), os)) <==> (exists o, q :: Jammed(After(events), o, q))
  {
    hide After, Circle, Jammed;
    var s := After(events);
    RunInv(events);
    if os :| Circle(s, os) {
      var o, q := CircleIsJam(s, os);
    }
    if o, q :| Jammed(s, o, q) {
      JamIsCircle(s, o, q);
    }
  }

  /** Whatever anybody asks for, in whatever order: owners that upgrade nothing form no circle. */
  lemma NoDeadlockInRuns(events: seq<Event>, os: seq<Owner>)
    requires forall i | 0 <= i < |os| :: PlainlyWaits(After(events), os[i])
    ensures !Circle(After(events), os)
  {
    hide After, Circle;
    RunInv(events);
    if Circle(After(events), os) {
      var o, q := CircleIsJam(After(events), os);
      assert false;
    }
  }

  // ----- upgrades -----

  lemma AfterNext(events: seq<Event>, e: Event)
    ensures After(events + [e]) == Step(After(events), e).0
  {
    assert (events + [e])[..|events|] == events;
  }

  lemma FirstGrant(s: State, o: Owner, l: Lock, m: Mode)
    requires o !in s.pending && o !in s.held && forall q <- s.held :: !Blocks(s.held[q], Request(l, Some(m)))
    ensures Step(s, UpdateWaiting(o, [Request(l, Some(m))])).0 == s.(held := s.held[o := map[l := m]])
  {
    var reqs := [Request(l, Some(m))];
    var none: Holding := map[];
    assert Granted(none, reqs[..0]) == none;
    assert Granted(none, reqs) == map[l := m];
    assert reqs[0].lock !in none;
    assert Accepted(none, reqs) && Blockers(s, o, reqs) == {};
  }

  lemma KeptPending(s: State, o: Owner, q: Owner, l: Lock)
    requires o !in s.pending && o in s.held && s.held[o] == map[l := Shared]
    requires q != o && q in s.held && l in s.held[q]
    ensures var take := [Request(l, Some(Exclusive))];
            && Step(s, UpdateWaiting(o, take)).0 == s.(pending := s.pending[o := take])
            && WaitsFor(s, o, take, q)
  {
    var take := [Request(l, Some(Exclusive))];
    assert take[0].lock == l;
    EarlierTotal(l, l);
    assert Clash(l, Exclusive, l, s.held[q][l]);
    assert Blocks(s.held[q], take[0]);
    assert q in Blockers(s, o, take);
  }

  /** With such a request they can: two owners that share a lock and both want it for themselves. */
  lemma UpgradesDeadlock(l: Lock) returns (events: seq<Event>)
    ensures Circle(After(events), [0, 1])
  {
    hide Step, WaitsFor, Blocks;
    var share, take := [Request(l, Some(Shared))], [Request(l, Some(Exclusive))];
    var h: Holding := map[l := Shared];
    var s1 := State(map[0 := h], map[]);
    var s2 := State(map[0 := h, 1 := h], map[]);
    var s3 := s2.(pending := map[0 := take]);
    SharesBlockNot(h, l);
    FirstGrant(Init(), 0, l, Shared);
    FirstGrant(s1, 1, l, Shared);
    KeptPending(s2, 0, 1, l);
    KeptPending(s3, 1, 0, l);
    events := [];
    AfterNext(events, UpdateWaiting(0, share));
    events := events + [UpdateWaiting(0, share)];
    AfterNext(events, UpdateWaiting(1, share));
    events := events + [UpdateWaiting(1, share)];
    assert After(events) == s2;
    AfterNext(events, UpdateWaiting(0, take));
    events := events + [UpdateWaiting(0, take)];
    AfterNext(events, UpdateWaiting(1, take));
    events := events + [UpdateWaiting(1, take)];
    SameHeld(s2, After(events), 0, take, 1);
    SameHeld(s3, After(events), 1, take, 0);
  }

  lemma SharesBlockNot(h: Holding, l: Lock)
    requires h == map[l := Shared]
    ensures !Blocks(h, Request(l, Some(Shared)))
  {
  }

  lemma SameHeld(s: State, s': State, o: Owner, reqs: seq<Request>, q: Owner)
    requires s.held == s'.held && WaitsFor(s, o, reqs, q)
    ensures WaitsFor(s', o, reqs, q)
  {
  }

  // ----- where locks and pending requests come from -----

  function RequestsOf(e: Event, o: Owner): (r: seq<Request>) {
    if (e.UpdateWaiting? || e.Update?) && e.o == o then e.reqs else []
  }

  /** Everything an owner asked for, in order. */
  function SentBy(events: seq<Event>, o: Owner): (r: seq<Request>) {
    if events == [] then [] else SentBy(events[..|events| - 1], o) + RequestsOf(events[|events| - 1], o)
  }

  /** What the owner holds or waits for is among the requests. */
  ghost predicate Origin(s: State, o: Owner, sent: seq<Request>) {
    && (forall l <- Held(s, o) :: Request(l, Some(Held(s, o)[l])) in sent)
    && (o in s.pending ==> forall r <- s.pending[o] :: r in sent)
  }

  lemma AllocateOrigin(s: State, o: Owner, p: Owner, reqs: seq<Request>, sent: seq<Request>)
    requires Origin(s, o, sent) && (o == p ==> forall r <- reqs :: r in sent)
    ensures Origin(Allocate(s, p, reqs).0, o, sent)
  {
    hide Accepted, Blockers, Granted;
    var s' := Allocate(s, p, reqs).0;
    var h := Granted(Held(s, p), reqs);
    assert s' == s || s' == s.(held := s.held[p := h]);
    if o == p {
      forall l | l in h ensures Request(l, Some(h[l])) in sent {
        GrantedIs(Held(s, o), reqs, l);
      }
    } else {
      assert Held(s', o) == Held(s, o);
    }
  }

  lemma StepOrigin(s: State, e: Event, o: Owner, sent: seq<Request>)
    requires Origin(s, o, sent)
    ensures Origin(Step(s, e).0, o, sent + RequestsOf(e, o))
  {
    hide Allocate, Accepted, Fulfilled;
    var all := sent + RequestsOf(e, o);
    assert Origin(s, o, all);
    match e
    case UpdateWaiting(p, reqs) =>
      AllocateOrigin(s, o, p, reqs, all);
      var s' := Allocate(s, p, reqs).0;
      assert Held(s'.(pending := s'.pending[p := reqs]), o) == Held(s', o);
    case Update(p, reqs) => AllocateOrigin(s, o, p, reqs, all);
    case Revisit(p) =>
      if p in s.pending {
        AllocateOrigin(s, o, p, s.pending[p], all);
        var s' := Allocate(s, p, s.pending[p]).0;
        assert Held(s'.(pending := s'.pending - {p}), o) == Held(s', o);
      }
    case Drop(p) => assert Held(s.(pending := s.pending - {p}), o) == Held(s, o);
  }

  lemma LastOfRest(events: seq<Event>, k: nat)
    requires k < |events|
    ensures var n := |events| - 1;
            events[..n][..k] == events[..k] && events[k..][..n - k] == events[..n][k..] && events[k..][n - k] == events[n]
  {
    var n := |events| - 1;
    var a, b := events[k..][..n - k], events[..n][k..];
    assert |a| == |b| == n - k;
    assert forall i | 0 <= i < n - k :: a[i] == events[k + i] == b[i];
  }

  /** An owner that had nothing at point k holds and waits for nothing but what it asked for since. */
  lemma {:induction false} OriginInRuns(events: seq<Event>, k: nat, o: Owner)
    requires k <= |events| && Held(After(events[..k]), o) == map[] && o !in After(events[..k]).pending
    ensures Origin(After(events), o, SentBy(events[k..], o))
    decreases |events|
  {
    hide Step, Origin, Held;
    if |events| == k {
      assert events[..k] == events;
      OriginOfNothing(After(events), o, SentBy(events[k..], o));
    } else {
      var n := |events| - 1;
      var init := events[..n];
      LastOfRest(events, k);
      OriginInRuns(init, k, o);
      StepOrigin(After(init), events[n], o, SentBy(init[k..], o));
    }
  }

  lemma OriginOfNothing(s: State, o: Owner, sent: seq<Request>)
    requires Held(s, o) == map[] && o !in s.pending
    ensures Origin(s, o, sent)
  {
  }

  // ----- requests in the order of names -----

  /** A lock that comes later by name is below the other one exactly when it is its lock set. */
  lemma EarlierByName(w: Lock, k: Lock)
    requires LockLe(k, w) && w != k
    ensures Earlier(w, k) <==> IsSet(w) && k.level == w.level
  {
    if Earlier(w, k) && !IsSet(w) {
      NameAntisym(w.name, k.name);
    }
  }
}
