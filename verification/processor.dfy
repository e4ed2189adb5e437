/** Lock acquisition and release of the opcode processor, lib/mcpu.py.

    The lock manager (WConfD) is abstract: a request is granted as a whole or stays pending, an
    opportunistic request is granted in part, and freeing a level drops what is held at it together
    with any pending request (src/Ganeti/Locking/Waiting.hs:360-382).  Every call to the lock
    manager or to the logical unit may raise.  The log records what the processor does. */
module Processors {
  import opened Basics
  import opened LockOrder
  import LM = LockManager

  /** lu.needed_locks[level] and the like: locking.ALL_SET or a list of names. */
  datatype Names = AllSet | Listed(names: seq<string>)

  /** What the logical unit says about one level: which of the lock dictionaries have an entry, how
      the level is to be acquired, and what DeclareLocks leaves in the entries (None: DeclareLocks
      removed it, so reading it raises).  `known` is the configuration's list of all names, `shared` the
      mode, and `count` the number of locks that an opportunistic acquisition must bring. */
  datatype LevelPlan = LevelPlan(
    acquiring: bool, adding: bool, opportunistic: bool, dontCollate: bool, allSetBefore: bool,
    declareRaises: bool, needed: Option<Names>, added: Option<Names>, known: seq<string>, shared: bool, count: nat)

  datatype LogicalUnit = LogicalUnit(plans: seq<LevelPlan>, reqBGL: bool)

  /** A unit and how it is run: `blocking` says that calc_timeout() answers None, `locking` that locks
      are enabled. */
  datatype Opcode = Opcode(lu: LogicalUnit, blocking: bool, locking: bool)

  datatype Outcome = Done | LockAcquireTimeout | Raised

  datatype Event =
    | Entered(level: nat)                             // the try block of a level begins
    | Requested(held: LM.Holding, reqs: Requests)     // UpdateLocksWaiting
    // one try of GuardedOpportunisticLockUnion and what it brought; again means the same as just before
    | Offered(held: LM.Holding, reqs: Requests, got: Requests, again: bool)
    | Body(held: LM.Holding)                          // the logical unit runs
    | Freed(level: nat)                               // FreeLocksLevel

  /** Locks with the modes in which they are asked for. */
  type Requests = seq<LM.Request>

  type Log = seq<Event>

  function Locks(reqs: Requests): (r: set<Lock>) {
    set q | q in reqs :: q.lock
  }

  /** Non-decreasing in (level, name). */
  ghost predicate Ascends(reqs: Requests) {
    forall i, j | 0 <= i < j < |reqs| :: LockLe(reqs[i].lock, reqs[j].lock)
  }

  /** Locks of one level are asked for in one mode. */
  ghost predicate OneMode(reqs: Requests) {
    forall a, b | a in reqs && b in reqs :: a.mode.Some? && (a.lock.level == b.lock.level ==> a.mode == b.mode)
  }

  ghost predicate Tidy(reqs: Requests) {
    Ascends(reqs) && OneMode(reqs)
  }

  /** Everything held was asked for, in the mode in which it is held. */
  ghost predicate From(held: LM.Holding, sent: Requests) {
    forall l <- held :: LM.Request(l, Some(held[l])) in sent
  }

  lemma {:induction false} GrantedKeys(h: LM.Holding, reqs: Requests)
    requires forall q <- reqs :: q.mode.Some?
    ensures LM.Granted(h, reqs).Keys == h.Keys + Locks(reqs)
  {
    if reqs != [] {
      GrantedKeys(h, reqs[..|reqs| - 1]);
      assert reqs == reqs[..|reqs| - 1] + [reqs[|reqs| - 1]];
    }
  }

  lemma GrantedFrom(h: LM.Holding, reqs: Requests, sent: Requests)
    requires From(h, sent)
    ensures From(LM.Granted(h, reqs), sent + reqs)
  {
    var g := LM.Granted(h, reqs);
    forall l | l in g ensures LM.Request(l, Some(g[l])) in sent + reqs {
      LM.GrantedIs(h, reqs, l);
    }
  }

  // ----- what the logical unit asks for -----

  /** The list of names wanted at a level, or None where computing it raises. */
  function WantedNames(p: LevelPlan): (r: Option<Names>) {
    var base := if p.acquiring then p.needed else Some(Listed([]));
    if !p.adding then base
    else if base == None || base.value.AllSet? || p.added == None || p.added.value.AllSet? then None
    else Some(Listed(base.value.names + p.added.value.names))
  }

  function Expanded(p: LevelPlan, names: Names): (r: seq<string>) {
    if names.Listed? then names.names else if p.opportunistic then p.known else [LOCKSET_NAME]
  }

  function AtLevel(level: nat, names: seq<string>, shared: bool): (r: Requests)
    ensures |r| == |names|
    ensures forall i | 0 <= i < |r| :: r[i] == LM.Request(Lock(level, names[i]), Some(ModeFor(shared)))
  {
    seq(|names|, i requires 0 <= i < |names| => LM.Request(Lock(level, names[i]), Some(ModeFor(shared))))
  }

  function ModeFor(shared: bool): (m: LM.Mode) {
    if shared then LM.Shared else LM.Exclusive
  }

  /** The request list of a level, sorted into lock order. */
  function RequestFor(p: LevelPlan, level: nat, names: Names): (r: Requests) {
    AtLevel(level, Sort(Expanded(p, names)), p.shared)
  }

  /** The locks of one level without which the unit must not run: all it names, unless they are to be
      had opportunistically.  A blocking acquisition ignores the wish for opportunistic locks. */
  function Required(op: Opcode, level: nat): (r: set<Lock>)
    requires level < |op.lu.plans|
  {
    var p := op.lu.plans[level];
    if !(p.acquiring || p.adding) || WantedNames(p).None? || (p.opportunistic && !op.blocking) then {}
    else set n | n in Expanded(p, WantedNames(p).value) :: Lock(level, n)
  }

  /** Everything required at the levels up to, not including, `level`, with the Big Ganeti Lock first. */
  function RequiredBelow(op: Opcode, level: nat): (r: set<Lock>)
    requires level <= |op.lu.plans|
  {
    if level == 0 then {}
    else if level == 1 then if op.locking then {Lock(0, BGL)} else {}
    else RequiredBelow(op, level - 1) + Required(op, level - 1)
  }

  /** The name is wanted: it is listed or one of all known names, the lock set stands for all of them unless
      they are to be had one by one, or it is added. */
  predicate Wanted(p: LevelPlan, n: string) {
    || (p.acquiring && p.needed.Some? && match p.needed.value
                                         case Listed(names) => n in names
                                         case AllSet => if p.opportunistic then n in p.known else n == LOCKSET_NAME)
    || (p.adding && p.added.Some? && p.added.value.Listed? && n in p.added.value.names)
  }

  /** Computing the names raises where an entry is missing and where names are added to all or as all; otherwise
      the names are exactly those wanted. */
  lemma WantedExactly(p: LevelPlan, n: string)
    ensures WantedNames(p).None? <==>
            || (p.acquiring && (p.needed.None? || (p.adding && p.needed.value.AllSet?)))
            || (p.adding && (p.added.None? || p.added.value.AllSet?))
    ensures WantedNames(p).Some? ==> (n in Expanded(p, WantedNames(p).value) <==> Wanted(p, n))
  {
  }

  /** The request list names exactly the wanted locks, in lock order, and asks for each one exclusively
      unless the plan shares the level. */
  lemma RequestInOrder(p: LevelPlan, level: nat, names: Names)
    ensures var r := RequestFor(p, level, names);
            && Tidy(r)
            && (forall q <- r :: q.lock.level == level && q.mode == Some(if p.shared then LM.Shared else LM.Exclusive))
            && Locks(r) == set n | n in Expanded(p, names) :: Lock(level, n)
  {
    var ns := Expanded(p, names);
    SortSorts(ns);
    SameMembers(Sort(ns), ns);
    hide Sort, Expanded, Tidy;
    AtLevelInOrder(level, Sort(ns), p.shared);
  }

  lemma AtLevelInOrder(level: nat, names: seq<string>, shared: bool)
    requires Ascending(names)
    ensures var r := AtLevel(level, names, shared);
            && Tidy(r) && Locks(r) == (set n | n in names :: Lock(level, n))
            && forall q <- r :: q.lock.level == level && q.mode == Some(if shared then LM.Shared else LM.Exclusive)
  {
    hide NameLe;
    var r := AtLevel(level, names, shared);
    forall n | n in names ensures Lock(level, n) in Locks(r) {
      var i :| 0 <= i < |names| && names[i] == n;
      assert r[i] in r;
    }
  }

  lemma SameMembers(a: seq<string>, b: seq<string>)
    requires multiset(a) == multiset(b)
    ensures forall x :: x in a <==> x in b
  {
    assert forall x :: x in a <==> x in multiset(a);
  }

  // ----- reading a log -----

  /** The levels whose finally clause is still to come. */
  function Active(log: Log): (r: set<nat>) {
    if log == [] then {} else ActiveAfter(Active(log[..|log| - 1]), log[|log| - 1])
  }

  function ActiveAfter(active: set<nat>, e: Event): (r: set<nat>) {
    if e.Entered? then active + {e.level} else if e.Freed? then active - {e.level} else active
  }

  function Entries(log: Log): (r: seq<nat>) {
    if log == [] then []
    else
      var r, e := Entries(log[..|log| - 1]), log[|log| - 1];
      if e.Entered? then r + [e.level] else r
  }

  function Frees(log: Log): (r: seq<nat>) {
    if log == [] then []
    else
      var r, e := Frees(log[..|log| - 1]), log[|log| - 1];
      if e.Freed? then r + [e.level] else r
  }

  /** How often the unit ran. */
  function Bodies(log: Log): (n: nat) {
    if log == [] then 0 else Bodies(log[..|log| - 1]) + if log[|log| - 1].Body? then 1 else 0
  }

  /** The unit ran at most once more, and did so if the outcome is a normal one. */
  predicate Ran(log0: Log, log1: Log, out: Outcome) {
    Bodies(log0) <= Bodies(log1) <= Bodies(log0) + 1 && (out.Done? ==> Bodies(log1) == Bodies(log0) + 1)
  }

  /** What an event asks for that was not asked for just before. */
  function Asks(e: Event): (r: Requests) {
    if e.Requested? || (e.Offered? && !e.again) then e.reqs else []
  }

  /** All locks asked for so far, in the order of the requests, the tries of an offer once. */
  function Sent(log: Log): (r: Requests) {
    if log == [] then [] else Sent(log[..|log| - 1]) + Asks(log[|log| - 1])
  }

  /** What an event brings if it is answered. */
  function Brings(e: Event): (r: Requests) {
    if e.Requested? then e.reqs else if e.Offered? then e.got else []
  }

  /** All that was granted, as long as every request was answered. */
  function Won(log: Log): (r: Requests) {
    if log == [] then [] else Won(log[..|log| - 1]) + Brings(log[|log| - 1])
  }

  /** What is held then. */
  function Account(log: Log): (h: LM.Holding) {
    LM.Granted(map[], Won(log))
  }

  predicate IsTry(e: Event, held: LM.Holding, reqs: Requests, got: Requests) {
    e.Offered? && e.held == held && e.reqs == reqs && e.got == got
  }

  /** The log ends with a try of the offer. */
  predicate LastTry(log: Log, held: LM.Holding, reqs: Requests, got: Requests) {
    log != [] && IsTry(log[|log| - 1], held, reqs, got)
  }

  /** A request goes on where the earlier ones stopped, asks for the locks of a level in the mode of that
      level, and everything held or asked for lies under a finally clause that is still to come. */
  ghost predicate InTurn(past: Log, held: LM.Holding, reqs: Requests) {
    && Tidy(Sent(past) + reqs)
    && From(held, Sent(past)) && held == Account(past)
    && (forall l | l in held || l in Locks(reqs) :: l.level in Active(past))
  }

  /** The plan wants locks of that level, or the Big Ganeti Lock, for itself alone. */
  predicate Alone(op: Opcode, l: Lock)
    requires |op.lu.plans| == LEVEL_COUNT
  {
    l.level < LEVEL_COUNT && if l.level == 0 then op.lu.reqBGL else !op.lu.plans[l.level].shared
  }

  /** Locks are asked for exclusively exactly where the plan wants them alone. */
  ghost predicate Planned(op: Opcode, reqs: Requests)
    requires |op.lu.plans| == LEVEL_COUNT
  {
    forall q <- reqs :: q.mode.Some? && (q.mode.value.Exclusive? <==> Alone(op, q.lock))
  }

  /** Nothing is to be locked at the level. */
  predicate Idles(p: LevelPlan) {
    !p.acquiring && !p.adding
  }

  /** Every level below is entered or has nothing to lock, and no level above is entered. */
  ghost predicate At(op: Opcode, active: set<nat>, level: nat)
    requires |op.lu.plans| == LEVEL_COUNT
  {
    && level <= LEVEL_COUNT
    && (forall a <- active :: a <= level)
    && (forall m: nat | 1 <= m < level :: m in active || Idles(op.lu.plans[m]))
  }

  /** Collating ends here: at a level that does not collate, at one that takes what it can get, and behind
      the last one. */
  ghost predicate Due(op: Opcode, active: set<nat>)
    requires |op.lu.plans| == LEVEL_COUNT
  {
    exists level: nat :: At(op, active, level) &&
      (level < LEVEL_COUNT ==> op.lu.plans[level].dontCollate || op.lu.plans[level].opportunistic)
  }

  /** No level that refuses to be collated lies between two requests, or has the second one. */
  ghost predicate Unbroken(op: Opcode, reqs: Requests)
    requires |op.lu.plans| == LEVEL_COUNT
  {
    forall a, b, m: nat | a in reqs && b in reqs && a.lock.level < m <= b.lock.level && m < LEVEL_COUNT ::
      !op.lu.plans[m].dontCollate
  }

  ghost predicate Definite(op: Opcode, reqs: Requests)
    requires |op.lu.plans| == LEVEL_COUNT
  {
    forall q <- reqs :: 1 <= q.lock.level < LEVEL_COUNT ==> !op.lu.plans[q.lock.level].opportunistic
  }

  /** How a request comes about: one lock at a time if the opcode blocks; otherwise the Big Ganeti Lock by
      itself, or everything collated when collating ends, with no lock that is to be had opportunistically. */
  ghost predicate Formed(op: Opcode, past: Log, reqs: Requests)
    requires |op.lu.plans| == LEVEL_COUNT
  {
    && Planned(op, reqs)
    && if op.blocking then |reqs| == 1
       else && Unbroken(op, reqs) && Definite(op, reqs)
            && ((forall q <- reqs :: q.lock.level == 0) || Due(op, Active(past)))
  }

  /** Opportunistic requests are for levels that ask for it, and bring enough or nothing. */
  ghost predicate Modest(op: Opcode, reqs: Requests, got: Requests)
    requires |op.lu.plans| == LEVEL_COUNT
  {
    && Planned(op, reqs) && PartOf(got, reqs) && !op.blocking
    && forall q <- reqs ::
         && 1 <= q.lock.level < LEVEL_COUNT && op.lu.plans[q.lock.level].opportunistic
         && (got == [] || |got| >= op.lu.plans[q.lock.level].count)
  }

  /** Such requests, before it is known what they bring. */
  ghost predicate Offerable(op: Opcode, reqs: Requests, count: nat)
    requires |op.lu.plans| == LEVEL_COUNT
  {
    && Planned(op, reqs) && !op.blocking
    && forall q <- reqs ::
         1 <= q.lock.level < LEVEL_COUNT && op.lu.plans[q.lock.level].opportunistic && op.lu.plans[q.lock.level].count == count
  }

  /** The level can be locked as planned: its names can be computed, locks are enabled, and locks that are
      added are not mixed with opportunistic ones or with all of the level. */
  predicate Feasible(op: Opcode, level: nat)
    requires |op.lu.plans| == LEVEL_COUNT && 1 <= level < LEVEL_COUNT
  {
    var p := op.lu.plans[level];
    Idles(p) || (MayBegin(op, level) && WantedNames(p).Some?)
  }

  predicate MayBegin(op: Opcode, level: nat)
    requires |op.lu.plans| == LEVEL_COUNT && 1 <= level < LEVEL_COUNT
  {
    var p := op.lu.plans[level];
    op.locking && !p.declareRaises && !(p.adding && (p.opportunistic || (p.acquiring && p.allSetBefore)))
  }

  ghost predicate FeasibleBelow(op: Opcode, level: nat)
    requires |op.lu.plans| == LEVEL_COUNT && level <= LEVEL_COUNT
  {
    (op.lu.reqBGL ==> op.locking) && forall m: nat | 1 <= m < level :: Feasible(op, m)
  }

  /** Of each level below that takes what it can get something is held, if it wants anything at all. */
  ghost predicate Served(op: Opcode, level: nat, held: LM.Holding)
    requires |op.lu.plans| == LEVEL_COUNT && level <= LEVEL_COUNT
  {
    forall m: nat | 1 <= m < level && WantsSome(op.lu.plans[m]) && op.lu.plans[m].opportunistic && !op.blocking ::
      exists l <- held :: l.level == m
  }

  predicate WantsSome(p: LevelPlan) {
    !Idles(p) && WantedNames(p).Some? && Expanded(p, WantedNames(p).value) != []
  }

  /** What each event promises, given everything logged before it. */
  ghost predicate Allowed(op: Opcode, past: Log, e: Event)
    requires |op.lu.plans| == LEVEL_COUNT
  {
    match e
    case Requested(held, reqs) => InTurn(past, held, reqs) && Formed(op, past, reqs)
    case Offered(held, reqs, got, again) =>
      Modest(op, reqs, got) && if again then LastTry(past, held, reqs, []) else InTurn(past, held, reqs)
    case Body(held) =>
      && RequiredBelow(op, LEVEL_COUNT) <= held.Keys && Served(op, LEVEL_COUNT, held) && FeasibleBelow(op, LEVEL_COUNT)
      && held == Account(past)
      && (forall l <- held :: l.level in Active(past) && (held[l].Exclusive? <==> Alone(op, l)))
    case _ => true
  }

  ghost predicate Good(op: Opcode, log: Log)
    requires |op.lu.plans| == LEVEL_COUNT
  {
    forall i | 0 <= i < |log| :: Allowed(op, log[..i], log[i])
  }

  lemma GoodInit(op: Opcode, log: Log, n: nat)
    requires |op.lu.plans| == LEVEL_COUNT && Good(op, log) && n <= |log|
    ensures Good(op, log[..n]) && (n < |log| ==> Allowed(op, log[..n], log[n]))
  {
    var init := log[..n];
    assert forall i | 0 <= i < n :: init[i] == log[i] && init[..i] == log[..i];
  }

  /** In a good log all requests together are non-decreasing in level and name, with one mode per level. */
  lemma {:induction false} SentInOrder(op: Opcode, log: Log)
    requires |op.lu.plans| == LEVEL_COUNT && Good(op, log)
    ensures Tidy(Sent(log))
  {
    if log != [] {
      var n := |log| - 1;
      GoodInit(op, log, n);
      SentInOrder(op, log[..n]);
      assert Sent(log[..n]) + [] == Sent(log[..n]);
    }
  }

  /** From i to j nothing was logged but tries of one offer, all in vain but perhaps the last. */
  ghost predicate Tries(log: Log, i: nat, j: nat) {
    && i <= j < |log| && log[j].Offered?
    && forall k | i <= k < j :: IsTry(log[k], log[j].held, log[j].reqs, [])
  }

  /** Every try of an offer, the first and each repetition, is in turn after what was sent before its first. */
  lemma {:induction false} EveryTryInTurn(op: Opcode, log: Log, j: nat) returns (i: nat)
    requires |op.lu.plans| == LEVEL_COUNT && Good(op, log) && j < |log| && log[j].Offered?
    ensures Tries(log, i, j) && InTurn(log[..i], log[j].held, log[j].reqs)
    ensures Sent(log[..j + 1]) == Sent(log[..i]) + log[j].reqs
    decreases j
  {
    hide InTurn, Good, Active;
    var past, e := log[..j], log[j];
    GoodInit(op, log, j);
    assert log[..j + 1][..j] == past;
    if e.again {
      assert log[j - 1] == past[|past| - 1] && log[..j - 1 + 1] == past;
      i := EveryTryInTurn(op, log, j - 1);
      assert Sent(log[..j + 1]) == Sent(past) + [];
    } else {
      i := j;
    }
  }

  lemma GoodSnoc(op: Opcode, log: Log, e: Event)
    requires |op.lu.plans| == LEVEL_COUNT && Good(op, log) && Allowed(op, log, e)
    ensures Good(op, log + [e])
  {
    var r := log + [e];
    forall i | 0 <= i < |r| ensures Allowed(op, r[..i], r[i]) {
      assert i < |log| ==> r[..i] == log[..i] && r[i] == log[i];
      assert i == |log| ==> r[..i] == log;
    }
  }

  lemma Snoc(log: Log, e: Event)
    ensures Active(log + [e]) == ActiveAfter(Active(log), e)
    ensures Entries(log + [e]) == if e.Entered? then Entries(log) + [e.level] else Entries(log)
    ensures Frees(log + [e]) == if e.Freed? then Frees(log) + [e.level] else Frees(log)
    ensures Sent(log + [e]) == Sent(log) + Asks(e)
    ensures Bodies(log + [e]) == Bodies(log) + if e.Body? then 1 else 0
    ensures Account(log + [e]) == LM.Granted(Account(log), Brings(e))
  {
    LM.GrantedConcat(map[], Won(log), Brings(e));
    hide LM.Granted;
  }

  function Rev(s: seq<nat>): (r: seq<nat>) {
    if s == [] then [] else [s[|s| - 1]] + Rev(s[..|s| - 1])
  }

  lemma {:induction false} RevCons(x: nat, s: seq<nat>)
    ensures Rev([x] + s) == Rev(s) + [x]
  {
    if s == [] {
      assert [x] + s == [x];
    } else {
      var t := s[..|s| - 1];
      assert ([x] + s)[..|s|] == [x] + t;
      RevCons(x, t);
    }
  }

  /** From log0 to log1 the levels in `es` were entered, in ascending order and none below lo, and
      each was freed once, highest first. */
  ghost predicate Nested(log0: Log, log1: Log, es: seq<nat>, lo: nat) {
    && Entries(log1) == Entries(log0) + es
    && Frees(log1) == Frees(log0) + Rev(es)
    && (forall i, j | 0 <= i < j < |es| :: es[i] < es[j])
    && (forall e <- es :: e >= lo)
  }

  lemma NestedCons(log0: Log, log1: Log, log2: Log, log3: Log, es: seq<nat>, level: nat)
    requires Entries(log1) == Entries(log0) + [level] && Frees(log1) == Frees(log0)
    requires Nested(log1, log2, es, level + 1)
    requires Entries(log3) == Entries(log2) && Frees(log3) == Frees(log2) + [level]
    ensures Nested(log0, log3, [level] + es, level)
  {
    hide Entries, Frees, Rev;
    RevCons(level, es);
    var r := [level] + es;
    forall i, j | 0 <= i < j < |r| ensures r[i] < r[j] {
      assert r[j] == es[j - 1];
      assert es[j - 1] in es;
    }
  }

  // ----- the state between two levels -----

  /** Everything held or collated lies below `level`, under a finally clause that is still to come;
      what is collated continues the requests sent so far; and every lock required at a lower level is
      held or collated. */
  ghost predicate Consistent(op: Opcode, active: set<nat>, sent: Requests, level: nat, held: LM.Holding, pending: Requests)
    requires level <= |op.lu.plans|
  {
    && (forall l | l in held || l in Locks(pending) :: l.level in active)
    && (forall a <- active :: a < level)
    && (forall q | q in sent || q in pending :: q.lock.level < level)
    && Tidy(sent + pending) && From(held, sent)
    && RequiredBelow(op, level) <= held.Keys + Locks(pending)
  }

  /** What is sent and collated is as planned; nothing is collated for a blocking opcode or across a level
      that refuses it; the levels so far were entered or have nothing to lock, and are feasible. */
  ghost predicate Orderly(op: Opcode, active: set<nat>, sent: Requests, level: nat, held: LM.Holding, pending: Requests)
    requires |op.lu.plans| == LEVEL_COUNT && level <= LEVEL_COUNT
  {
    && Planned(op, sent) && Planned(op, pending)
    && (op.blocking ==> pending == [])
    && Unbroken(op, pending) && Collects(op, level, pending) && Definite(op, pending)
    && At(op, active, level) && FeasibleBelow(op, level) && Served(op, level, held)
  }

  lemma ServedStill(op: Opcode, level: nat, held: LM.Holding, held': LM.Holding)
    requires |op.lu.plans| == LEVEL_COUNT && level <= LEVEL_COUNT && Served(op, level, held) && held.Keys <= held'.Keys
    ensures Served(op, level, held')
  {
    hide WantsSome;
    forall m: nat | 1 <= m < level && WantsSome(op.lu.plans[m]) && op.lu.plans[m].opportunistic && !op.blocking
      ensures exists l <- held' :: l.level == m
    {
      var l :| l in held && l.level == m;
      assert l in held';
    }
  }

  ghost predicate Collects(op: Opcode, level: nat, pending: Requests)
    requires |op.lu.plans| == LEVEL_COUNT && level <= LEVEL_COUNT
  {
    forall q, m: nat | q in pending && q.lock.level < m < level :: !op.lu.plans[m].dontCollate
  }

  lemma FlushIsOrderly(op: Opcode, active: set<nat>, sent: Requests, level: nat, held: LM.Holding, pending: Requests)
    requires |op.lu.plans| == LEVEL_COUNT && level <= LEVEL_COUNT && Orderly(op, active, sent, level, held, pending)
    ensures Orderly(op, active, sent + pending, level, LM.Granted(held, pending), [])
  {
    GrantedKeys(held, pending);
    ServedStill(op, level, held, LM.Granted(held, pending));
    hide At, FeasibleBelow, Alone, Served, LM.Granted;
  }

  lemma SkipIsOrderly(op: Opcode, active: set<nat>, sent: Requests, level: nat, held: LM.Holding, pending: Requests)
    requires |op.lu.plans| == LEVEL_COUNT && 1 <= level < LEVEL_COUNT && Orderly(op, active, sent, level, held, pending)
    requires Idles(op.lu.plans[level]) && (op.lu.plans[level].dontCollate ==> pending == [])
    ensures Orderly(op, active, sent, level + 1, held, pending)
  {
    hide Planned, Unbroken, Definite;
  }

  /** The level is entered and feasible. */
  lemma EnteredIsOrderly(op: Opcode, active: set<nat>, level: nat)
    requires |op.lu.plans| == LEVEL_COUNT && 1 <= level < LEVEL_COUNT
    requires At(op, active, level) && FeasibleBelow(op, level) && Feasible(op, level)
    ensures At(op, active + {level}, level + 1) && FeasibleBelow(op, level + 1)
  {
    hide Feasible, Idles;
  }

  lemma RequestIsPlanned(op: Opcode, level: nat, names: Names)
    requires |op.lu.plans| == LEVEL_COUNT && 1 <= level < LEVEL_COUNT
    ensures var reqs := RequestFor(op.lu.plans[level], level, names);
            Planned(op, reqs) && Unbroken(op, reqs) && forall q <- reqs :: q.lock.level == level
  {
    hide RequestFor;
    RequestInOrder(op.lu.plans[level], level, names);
  }

  lemma CollateIsOrderly(op: Opcode, active: set<nat>, sent: Requests, level: nat, held: LM.Holding, pending: Requests,
                         names: Names)
    requires |op.lu.plans| == LEVEL_COUNT && 1 <= level < LEVEL_COUNT && Orderly(op, active, sent, level, held, pending)
    requires Feasible(op, level) && !op.blocking && !op.lu.plans[level].opportunistic
    requires op.lu.plans[level].dontCollate ==> pending == []
    requires forall q <- pending :: q.lock.level < level
    ensures Orderly(op, active + {level}, sent, level + 1, held, pending + RequestFor(op.lu.plans[level], level, names))
  {
    hide RequestFor, At, FeasibleBelow, Feasible, Alone, WantsSome;
    RequestIsPlanned(op, level, names);
    EnteredIsOrderly(op, active, level);
  }

  /** Something was got of a level if it wants anything and takes what it can get. */
  ghost predicate GotSome(op: Opcode, level: nat, got: Requests)
    requires |op.lu.plans| == LEVEL_COUNT && 1 <= level < LEVEL_COUNT
  {
    op.lu.plans[level].opportunistic && !op.blocking && WantsSome(op.lu.plans[level]) ==> got != []
  }

  lemma AcquireIsOrderly(op: Opcode, active: set<nat>, sent: Requests, level: nat, held: LM.Holding, names: Names, got: Requests)
    requires |op.lu.plans| == LEVEL_COUNT && 1 <= level < LEVEL_COUNT && Orderly(op, active, sent, level, held, [])
    requires Feasible(op, level) && PartOf(got, RequestFor(op.lu.plans[level], level, names)) && GotSome(op, level, got)
    ensures Orderly(op, active + {level}, sent + RequestFor(op.lu.plans[level], level, names), level + 1,
                    LM.Granted(held, got), [])
  {
    hide RequestFor, At, FeasibleBelow, Feasible, Alone, LM.Granted;
    RequestIsPlanned(op, level, names);
    EnteredIsOrderly(op, active, level);
    NowServed(op, level, held, names, got);
    hide Served;
  }

  lemma NowServed(op: Opcode, level: nat, held: LM.Holding, names: Names, got: Requests)
    requires |op.lu.plans| == LEVEL_COUNT && 1 <= level < LEVEL_COUNT && Served(op, level, held)
    requires PartOf(got, RequestFor(op.lu.plans[level], level, names)) && GotSome(op, level, got)
    ensures Served(op, level + 1, LM.Granted(held, got))
  {
    hide RequestFor, WantsSome, LM.Granted;
    RequestIsPlanned(op, level, names);
    GrantedKeys(held, got);
    ServedStill(op, level, held, LM.Granted(held, got));
    if got != [] {
      assert got[0].lock in LM.Granted(held, got) && got[0].lock.level == level;
    }
  }

  /** What is collated may be sent where collating ends, before or after the level is entered. */
  lemma CollatedIsFormed(op: Opcode, log: Log, active: set<nat>, sent: Requests, level: nat, held: LM.Holding, pending: Requests)
    requires |op.lu.plans| == LEVEL_COUNT && level <= LEVEL_COUNT && Orderly(op, active, sent, level, held, pending)
    requires pending != [] && (Active(log) == active || Active(log) == active + {level})
    requires level < LEVEL_COUNT ==> op.lu.plans[level].dontCollate || op.lu.plans[level].opportunistic
    ensures Formed(op, log, pending)
  {
    hide Planned, Unbroken, Active, FeasibleBelow, Idles, Served;
    assert At(op, Active(log), level);
  }

  lemma TidyModes(reqs: Requests)
    requires Tidy(reqs)
    ensures forall q <- reqs :: q.mode.Some?
  {
  }

  lemma TidyPart(sent: Requests, reqs: Requests)
    requires Tidy(sent + reqs)
    ensures Tidy(sent) && Tidy(reqs)
  {
    var all := sent + reqs;
    assert forall i | 0 <= i < |sent| :: all[i] == sent[i];
    assert forall i | 0 <= i < |reqs| :: all[|sent| + i] == reqs[i];
    assert forall q | q in sent || q in reqs :: q in all;
  }

  lemma FlushKeeps(op: Opcode, active: set<nat>, sent: Requests, level: nat, held: LM.Holding, pending: Requests)
    requires level <= |op.lu.plans| && Consistent(op, active, sent, level, held, pending)
    ensures Consistent(op, active, sent + pending, level, LM.Granted(held, pending), [])
  {
    hide RequiredBelow;
    TidyPart(sent, pending);
    TidyModes(pending);
    GrantedKeys(held, pending);
    GrantedFrom(held, pending, sent);
    hide Tidy, From;
    assert sent + pending + [] == sent + pending;
  }

  lemma SkipKeeps(op: Opcode, active: set<nat>, sent: Requests, level: nat, held: LM.Holding, pending: Requests)
    requires 1 <= level < |op.lu.plans| && Consistent(op, active, sent, level, held, pending)
    requires !op.lu.plans[level].acquiring && !op.lu.plans[level].adding
    ensures Consistent(op, active, sent, level + 1, held, pending)
  {
    hide Tidy, From;
  }

  lemma TidyAppend(low: Requests, reqs: Requests, level: nat)
    requires Tidy(low) && Tidy(reqs)
    requires (forall q <- low :: q.lock.level < level) && forall q <- reqs :: q.lock.level == level
    ensures Tidy(low + reqs)
  {
    assert forall i | 0 <= i < |low| :: low[i] in low;
    assert forall i | 0 <= i < |reqs| :: reqs[i] in reqs;
  }

  /** The request of a level joins what is collated. */
  lemma CollateKeeps(op: Opcode, active: set<nat>, sent: Requests, level: nat, held: LM.Holding,
                     pending: Requests, names: Names)
    requires 1 <= level < |op.lu.plans| && Consistent(op, active, sent, level, held, pending)
    requires WantedNames(op.lu.plans[level]) == Some(names)
    ensures Consistent(op, active + {level}, sent, level + 1, held,
                       pending + RequestFor(op.lu.plans[level], level, names))
  {
    hide RequestFor, Tidy, From;
    var reqs := RequestFor(op.lu.plans[level], level, names);
    RequestInOrder(op.lu.plans[level], level, names);
    TidyAppend(sent + pending, reqs, level);
    assert sent + (pending + reqs) == sent + pending + reqs;
    assert held.Keys + Locks(pending + reqs) == held.Keys + Locks(pending) + Locks(reqs);
  }

  /** Some of the requests, in their order. */
  ghost predicate PartOf(got: Requests, reqs: Requests) {
    forall q <- got :: q in reqs
  }

  /** With nothing collated, what a level's request brings keeps the state. */
  lemma AcquireKeeps(op: Opcode, active: set<nat>, sent: Requests, level: nat, held: LM.Holding, names: Names, got: Requests)
    requires 1 <= level < |op.lu.plans| && Consistent(op, active, sent, level, held, [])
    requires WantedNames(op.lu.plans[level]) == Some(names)
    requires var reqs := RequestFor(op.lu.plans[level], level, names);
             PartOf(got, reqs) && ((op.lu.plans[level].opportunistic && !op.blocking) || got == reqs)
    ensures Consistent(op, active + {level}, sent + RequestFor(op.lu.plans[level], level, names), level + 1,
                       LM.Granted(held, got), [])
  {
    hide RequestFor, Tidy, From, LM.Granted;
    var reqs := RequestFor(op.lu.plans[level], level, names);
    RequestInOrder(op.lu.plans[level], level, names);
    TidyModes(reqs);
    GrantedKeys(held, got);
    assert held.Keys + Locks([]) == held.Keys && sent + [] == sent;
    TidyAppend(sent, reqs, level);
    assert sent + reqs + [] == sent + reqs;
    PartFrom(held, got, reqs, sent);
  }

  lemma PartFrom(held: LM.Holding, got: Requests, reqs: Requests, sent: Requests)
    requires From(held, sent) && PartOf(got, reqs)
    ensures From(LM.Granted(held, got), sent + reqs)
  {
    GrantedFrom(held, got, sent);
  }

  lemma MayRequest(op: Opcode, active: set<nat>, sent: Requests, level: nat, held: LM.Holding, names: Names)
    requires level < |op.lu.plans| && Consistent(op, active, sent, level, held, [])
    requires WantedNames(op.lu.plans[level]) == Some(names)
    ensures var reqs := RequestFor(op.lu.plans[level], level, names);
            && Tidy(sent + reqs) && From(held, sent)
            && (forall l | l in held || l in Locks(reqs) :: l.level in active + {level})
  {
    hide RequestFor, From;
    var reqs := RequestFor(op.lu.plans[level], level, names);
    RequestInOrder(op.lu.plans[level], level, names);
    hide Tidy;
    assert sent + [] == sent;
    TidyAppend(sent, reqs, level);
  }

  /** While the first i locks of a request are held, the next one is in turn. */
  lemma NextInTurn(sent: Requests, held: LM.Holding, reqs: Requests, i: nat)
    requires Tidy(sent + reqs) && From(held, sent) && i < |reqs|
    ensures Tidy(sent + reqs[..i] + [reqs[i]]) && From(LM.Granted(held, reqs[..i]), sent + reqs[..i])
    ensures LM.Granted(held, reqs[..i + 1]) == LM.Granted(LM.Granted(held, reqs[..i]), [reqs[i]])
  {
    GrantedFrom(held, reqs[..i], sent);
    var r, all := sent + reqs[..i] + [reqs[i]], sent + reqs;
    assert all == r + reqs[i + 1..];
    TidyPart(r, reqs[i + 1..]);
    assert reqs[..i + 1][..i] == reqs[..i];
    var h := LM.Granted(held, reqs[..i]);
    assert [reqs[i]][..0] == [] && LM.Granted(h, []) == h;
  }

  // ----- the processor -----

  /** What is held at other levels. */
  function Elsewhere(h: LM.Holding, level: nat): (r: LM.Holding) {
    map l | l in h && l.level != level :: h[l]
  }

  /** The requests for locks out of the given set. */
  function Chosen(reqs: Requests, locks: set<Lock>): (r: Requests) {
    if reqs == [] then []
    else (if reqs[0].lock in locks then [reqs[0]] else []) + Chosen(reqs[1..], locks)
  }

  lemma {:induction false} ChosenAmong(reqs: Requests, locks: set<Lock>)
    ensures PartOf(Chosen(reqs, locks), reqs)
  {
    if reqs != [] {
      ChosenAmong(reqs[1..], locks);
    }
  }

  lemma OfferGrants(h: LM.Holding, got: Requests, reqs: Requests)
    requires PartOf(got, reqs) && Tidy(reqs)
    ensures h.Keys <= LM.Granted(h, got).Keys <= h.Keys + Locks(reqs)
    ensures got == [] ==> LM.Granted(h, got) == h
  {
    TidyModes(reqs);
    GrantedKeys(h, got);
  }

  /** The processor with the opcode it runs. */
  class Processor {
    const op: Opcode
    var held: LM.Holding
    var waiting: bool        // WConfD keeps a pending request of this processor
    var failed: set<nat>     // levels at which FreeLocksLevel raised
    var log: Log

    constructor (op: Opcode)
      requires |op.lu.plans| == LEVEL_COUNT
      ensures held == map[] && !waiting && failed == {} && log == [] && this.op == op
    {
      this.op := op;
      held, waiting, failed, log := map[], false, {}, [];
    }

    ghost predicate GoodLog()
      reads this
    {
      |op.lu.plans| == LEVEL_COUNT && Good(op, log)
    }

    method Record(e: Event)
      requires GoodLog() && Allowed(op, log, e)
      modifies this`log
      ensures log == old(log) + [e] && GoodLog()
      ensures Active(log) == ActiveAfter(Active(old(log)), e)
      ensures Entries(log) == if e.Entered? then Entries(old(log)) + [e.level] else Entries(old(log))
      ensures Frees(log) == if e.Freed? then Frees(old(log)) + [e.level] else Frees(old(log))
      ensures Sent(log) == Sent(old(log)) + Asks(e) && (Asks(e) == [] ==> Sent(log) == Sent(old(log)))
      ensures Bodies(log) == Bodies(old(log)) + if e.Body? then 1 else 0
      ensures Account(log) == LM.Granted(Account(old(log)), Brings(e)) && (Brings(e) == [] ==> Account(log) == Account(old(log)))
    {
      GoodSnoc(op, log, e);
      Snoc(log, e);
      log := log + [e];
    }

    /** Any other call that may raise: callbacks, configuration, ListLocks. */
    method Other() returns (raised: bool)
    {
      raised := *;
    }

    /** Nothing but requests was logged, and held locks are old ones or among the given ones. */
    ghost predicate Grew(log0: Log, held0: LM.Holding, reqs: Requests)
      reads this
    {
      && GoodLog()
      && Active(log) == Active(log0) && Entries(log) == Entries(log0) && Frees(log) == Frees(log0)
      && Bodies(log) == Bodies(log0)
      && held0.Keys <= held.Keys <= held0.Keys + Locks(reqs)
    }

    /** _RequestAndWait: one request for all the locks; on a timeout or an error the request may be
        pending or even granted. */
    method RequestAndWait(reqs: Requests) returns (out: Outcome)
      requires GoodLog() && InTurn(log, held, reqs) && Formed(op, log, reqs)
      modifies this`held, this`waiting, this`log
      ensures Grew(old(log), old(held), reqs)
      ensures out.Done? ==> held == LM.Granted(old(held), reqs) && Sent(log) == Sent(old(log)) + reqs && held == Account(log)
    {
      hide Good, Entries, Frees, Active, Sent, Bodies, Account, Formed;
      var raised := Other();
      if raised {
        return Raised;
      }
      TidyPart(Sent(log), reqs);
      TidyModes(reqs);
      GrantedKeys(held, reqs);
      Record(Requested(held, reqs));
      out, waiting := *, *;
      var granted: bool := *;
      if out.Done? || granted {
        held := LM.Granted(held, reqs);
      }
      if out.Done? {
        waiting := false;
      }
    }

    /** The definite acquisition: one lock after the other, in order, for as long as it takes. */
    method OneByOne(reqs: Requests) returns (out: Outcome)
      requires GoodLog() && InTurn(log, held, reqs) && op.blocking && Planned(op, reqs)
      modifies this`held, this`waiting, this`log
      ensures Grew(old(log), old(held), reqs)
      ensures out.Done? ==> held == LM.Granted(old(held), reqs) && Sent(log) == Sent(old(log)) + reqs && held == Account(log)
    {
      hide Good, Entries, Frees, Active, Sent, Bodies, Tidy, From, Account, Alone;
      ghost var sent, held0 := Sent(log), held;
      assert LM.Granted(held0, reqs[..0]) == held0 && sent + reqs[..0] == sent;
      for i := 0 to |reqs|
        invariant Grew(old(log), held0, reqs)
        invariant held == LM.Granted(held0, reqs[..i]) && Sent(log) == sent + reqs[..i] && held == Account(log)
      {
        hide LM.Granted;
        NextInTurn(sent, held0, reqs, i);
        assert reqs[i] in reqs && Locks([reqs[i]]) <= Locks(reqs);
        out := RequestAndWait([reqs[i]]);
        if !out.Done? {
          return;
        }
        assert sent + reqs[..i] + [reqs[i]] == sent + reqs[..i + 1];
      }
      assert reqs[..|reqs|] == reqs;
      return Done;
    }

    /** GuardedOpportunisticLockUnion, repeated until enough is granted or time is up.  A try that brings
        too little changes nothing. */
    method Offer(reqs: Requests, count: nat, tries: nat) returns (out: Outcome, got: Requests)
      requires GoodLog() && InTurn(log, held, reqs) && Offerable(op, reqs, count) && tries > 0
      modifies this`held, this`log
      ensures Grew(old(log), old(held), reqs) && PartOf(got, reqs) && held == LM.Granted(old(held), got) == Account(log)
      ensures Sent(log) == Sent(old(log)) + reqs && LastTry(log, old(held), reqs, got)
      ensures out.Done? ==> |got| >= count && got != []
    {
      hide Good, Entries, Frees, Active, Sent, Bodies, Account, Offerable;
      TidyPart(Sent(log), reqs);
      assert held == Account(log);
      hide InTurn;
      got, out := [], LockAcquireTimeout;
      OfferGrants(held, got, reqs);
      for i := 0 to tries
        invariant Grew(old(log), old(held), reqs) && held == old(held) && got == [] && out == LockAcquireTimeout
        invariant held == Account(log)
        invariant i == 0 ==> log == old(log)
        invariant i > 0 ==> LastTry(log, held, reqs, []) && Sent(log) == Sent(old(log)) + reqs
      {
        got, out := Try(reqs, count, i > 0);
        if out != LockAcquireTimeout {
          return;
        }
      }
    }

    /** One try; `again` says that the one before it was in vain. */
    method Try(reqs: Requests, count: nat, again: bool) returns (got: Requests, out: Outcome)
      requires GoodLog() && Tidy(reqs) && if again then LastTry(log, held, reqs, []) else InTurn(log, held, reqs)
      requires held == Account(log) && Offerable(op, reqs, count)
      modifies this`held, this`log
      ensures Grew(old(log), old(held), reqs) && PartOf(got, reqs) && held == LM.Granted(old(held), got) == Account(log)
      ensures LastTry(log, old(held), reqs, got)
      ensures Sent(log) == if again then Sent(old(log)) else Sent(old(log)) + reqs
      ensures out == LockAcquireTimeout ==> got == [] && held == old(held)
      ensures out.Done? ==> |got| >= count && got != []
    {
      hide Good, Entries, Frees, Active, Sent, Bodies, InTurn, Account, Tidy;
      var granted: set<Lock> := *;
      got := Chosen(reqs, granted - held.Keys);
      ChosenAmong(reqs, granted - held.Keys);
      if |got| < count {
        got := [];
      }
      Record(Offered(held, reqs, got, again));
      OfferGrants(held, got, reqs);
      held := LM.Granted(held, got);
      var raised := Other();
      out := if raised then Raised else if got == [] then LockAcquireTimeout else Done;
    }

    method FreeLocksLevel(level: nat) returns (raised: bool)
      requires GoodLog()
      modifies this
      ensures GoodLog() && Active(log) == Active(old(log)) - {level}
      ensures Entries(log) == Entries(old(log)) && Frees(log) == Frees(old(log)) + [level]
      ensures Bodies(log) == Bodies(old(log))
      ensures raised ==> failed == old(failed) + {level} && held.Keys <= old(held).Keys
      ensures !raised ==> failed == old(failed) && !waiting && held == Elsewhere(old(held), level)
    {
      Record(Freed(level));
      raised := *;
      if raised {
        failed := failed + {level};
        var kept: set<Lock> := *;
        held := map l | l in held && l in kept :: held[l];
      } else {
        held := Elsewhere(held, level);
        waiting := false;
      }
    }

    ghost predicate Ready(level: nat, pending: Requests)
      reads this
    {
      && GoodLog() && level <= LEVEL_COUNT && Consistent(op, Active(log), Sent(log), level, held, pending)
      && Orderly(op, Active(log), Sent(log), level, held, pending) && held == Account(log)
    }

    /** Inside the try block of a level, before anything is acquired in it. */
    ghost predicate InTry(level: nat, pending: Requests, active: set<nat>)
      reads this
    {
      && GoodLog() && 1 <= level < LEVEL_COUNT && Active(log) == active + {level}
      && Consistent(op, active, Sent(log), level, held, pending)
      && Orderly(op, active, Sent(log), level, held, pending) && held == Account(log)
      && MayBegin(op, level) && (op.lu.plans[level].dontCollate ==> pending == [])
    }

    /** What remains when the levels from `level` on have been left again. */
    ghost predicate Unwound(level: nat, pending: Requests, log0: Log, held0: LM.Holding, failed0: set<nat>, es: seq<nat>)
      reads this
    {
      && GoodLog() && Nested(log0, log, es, level) && Active(log) == Active(log0) && failed0 <= failed
      && (forall l <- held :: l in held0 || l in Locks(pending) || l.level in failed)
    }

    /** _ExecLU with the error handling around it.  The unit may release and downgrade locks early. */
    method ExecLU() returns (out: Outcome)
      requires Ready(LEVEL_COUNT, [])
      modifies this`held, this`log
      ensures GoodLog() && Nested(old(log), log, [], 0) && Active(log) == Active(old(log)) && held.Keys <= old(held).Keys
      ensures Bodies(log) == Bodies(old(log)) + 1
    {
      hide Good, Entries, Frees, Active, Sent, Bodies, Tidy, From, RequiredBelow;
      assert held.Keys + Locks([]) == held.Keys;
      ReadyModes(op, Sent(log), held);
      hide Account;
      Record(Body(held));
      out := *;
      var kept: set<Lock>, downgraded: set<Lock> := *, *;
      held := map l | l in held && l in kept :: if l in downgraded then LM.Shared else held[l];
    }

    /** Sends the collated requests, if there are any. */
    method Flush(level: nat, pending: Requests) returns (out: Outcome)
      requires Ready(level, pending) && (level < LEVEL_COUNT ==> op.lu.plans[level].dontCollate)
      modifies this`held, this`waiting, this`log
      ensures Grew(old(log), old(held), pending)
      ensures out.Done? ==> Ready(level, []) && held == LM.Granted(old(held), pending)
    {
      if pending == [] {
        return Done;
      }
      CollatedIsFormed(op, log, Active(log), Sent(log), level, held, pending);
      hide Orderly, Formed, Account;
      out := RequestAndWait(pending);
      if out.Done? {
        FlushKeeps(op, Active(log), Sent(old(log)), level, old(held), pending);
        FlushIsOrderly(op, Active(log), Sent(old(log)), level, old(held), pending);
        var raised := Other();
        if raised {
          out := Raised;
        }
      }
    }

    /** _LockAndExecLU: locks one level, goes on with the next one, and frees the level again. */
    method LockAndExecLU(level: nat, pending: Requests) returns (out: Outcome, ghost es: seq<nat>)
      requires 1 <= level <= LEVEL_COUNT && Ready(level, pending)
      modifies this
      ensures Unwound(level, pending, old(log), old(held), old(failed), es) && Ran(old(log), log, out)
      decreases LEVEL_COUNT - level, 1
    {
      hide Good, Consistent, Entries, Frees, Active, Sent, Bodies, Orderly, Account;
      es := [];
      if level == LEVEL_COUNT {
        out := Flush(level, pending);
        if out.Done? {
          out := ExecLU();
        }
        return;
      }
      var p, collated := op.lu.plans[level], pending;
      if p.dontCollate && pending != [] {
        out := Flush(level, pending);
        if !out.Done? {
          return;
        }
        collated := [];
      }
      if p.adding && (p.opportunistic || (p.acquiring && p.allSetBefore)) {
        out := Raised;
        return;
      }
      if !p.adding && !p.acquiring {
        SkipKeeps(op, Active(log), Sent(log), level, held, collated);
        SkipIsOrderly(op, Active(log), Sent(log), level, held, collated);
        out, es := LockAndExecLU(level + 1, collated);
        return;
      }
      if !op.locking || p.declareRaises {
        out := Raised;
        return;
      }
      out, es := LockLevel(level, collated);
    }

    /** The try statement of one level. */
    method LockLevel(level: nat, pending: Requests) returns (out: Outcome, ghost es: seq<nat>)
      requires 1 <= level < LEVEL_COUNT && Ready(level, pending) && MayBegin(op, level)
      requires op.lu.plans[level].dontCollate ==> pending == []
      modifies this
      ensures Unwound(level, pending, old(log), old(held), old(failed), es) && Ran(old(log), log, out)
      decreases LEVEL_COUNT - level, 0
    {
      hide Good, Entries, Frees, Active, Sent, Bodies, Orderly, Account, MayBegin;
      NotActive(op, Active(log), Sent(log), level, held, pending);
      hide Consistent;
      Record(Entered(level));
      ghost var log1 := log;
      out, es := AcquireAndGoOn(level, pending, Active(old(log)));
      ghost var log2 := log;
      var raised := FreeLocksLevel(level);
      if raised {
        out := Raised;
      }
      NestedCons(old(log), log1, log2, log, es, level);
      es := [level] + es;
    }

    /** The body of that try statement: collate or acquire, then recurse. */
    method AcquireAndGoOn(level: nat, pending: Requests, ghost active: set<nat>)
      returns (out: Outcome, ghost es: seq<nat>)
      requires InTry(level, pending, active)
      modifies this
      ensures GoodLog() && Nested(old(log), log, es, level + 1) && Active(log) == Active(old(log)) && old(failed) <= failed
      ensures Ran(old(log), log, out)
      ensures forall l <- held :: l in old(held) || l in Locks(pending) || l.level == level || l.level in failed
      decreases LEVEL_COUNT - level, 0, 0
    {
      hide Good, Entries, Frees, Active, Sent, Bodies, Consistent, Orderly, Account, MayBegin;
      es := [];
      var p := op.lu.plans[level];
      var wanted := WantedNames(p);
      if wanted.None? {
        out := Raised;
        return;
      }
      ghost var reqs := RequestFor(p, level, wanted.value);
      RequestInOrder(p, level, wanted.value);
      assert Locks(pending + reqs) == Locks(pending) + Locks(reqs);
      if !op.blocking && !p.opportunistic {
        CollateKeeps(op, active, Sent(log), level, held, pending, wanted.value);
        PendingBelow(op, active, Sent(log), level, held, pending);
        CollateIsOrderly(op, active, Sent(log), level, held, pending, wanted.value);
        out, es := LockAndExecLU(level + 1, pending + RequestFor(p, level, wanted.value));
      } else {
        out := AcquireNow(level, pending, wanted.value, active);
        if out.Done? {
          out, es := LockAndExecLU(level + 1, []);
        }
      }
    }

    /** Sends what is collated, then takes the locks of this level. */
    method AcquireNow(level: nat, pending: Requests, names: Names, ghost active: set<nat>) returns (out: Outcome)
      requires InTry(level, pending, active)
      requires WantedNames(op.lu.plans[level]) == Some(names) && (op.blocking || op.lu.plans[level].opportunistic)
      modifies this`held, this`waiting, this`log
      ensures GoodLog() && Active(log) == Active(old(log)) && Entries(log) == Entries(old(log)) && Frees(log) == Frees(old(log))
      ensures Bodies(log) == Bodies(old(log))
      ensures out.Done? ==> Ready(level + 1, [])
      ensures forall l <- held :: l in old(held) || l in Locks(pending) || l.level == level
    {
      hide Good, Entries, Frees, Active, Sent, Bodies;
      assert pending != [] ==> !op.blocking;
      hide Orderly, Account, MayBegin, Formed;
      if pending != [] {
        CollatedIsFormed(op, log, active, Sent(log), level, held, pending);
        out := RequestAndWait(pending);
        if !out.Done? {
          return;
        }
        FlushKeeps(op, active, Sent(old(log)), level, old(held), pending);
        FlushIsOrderly(op, active, Sent(old(log)), level, old(held), pending);
        var raised := Other();
        if raised {
          return Raised;
        }
      }
      assert Consistent(op, active, Sent(log), level, held, []);
      out := TakeLevel(level, names, active);
    }

    /** The acquiring part of _AcquireLocks for one level. */
    method TakeLevel(level: nat, names: Names, ghost active: set<nat>) returns (out: Outcome)
      requires InTry(level, [], active)
      requires WantedNames(op.lu.plans[level]) == Some(names) && (op.blocking || op.lu.plans[level].opportunistic)
      modifies this`held, this`waiting, this`log
      ensures Grew(old(log), old(held), RequestFor(op.lu.plans[level], level, names))
      ensures forall l <- held :: l in old(held) || l.level == level
      ensures out.Done? ==> Ready(level + 1, [])
    {
      hide Good, Entries, Frees, Active, Sent, Bodies;
      var reqs := RequestFor(op.lu.plans[level], level, names);
      RequestInOrder(op.lu.plans[level], level, names);
      MayRequest(op, active, Sent(log), level, held, names);
      RequestIsPlanned(op, level, names);
      hide Consistent, RequestFor, Tidy, From, Orderly, Account, MayBegin, Planned;
      var got := reqs;
      if reqs == [] {
        out := Done;
        assert LM.Granted(held, reqs) == held && Sent(log) + reqs == Sent(log);
      } else if op.blocking {
        out := OneByOne(reqs);
      } else {
        var tries: int := *;
        out, got := Offer(reqs, op.lu.plans[level].count, if tries > 0 then tries else 1);
      }
      if out.Done? {
        AcquireKeeps(op, active, Sent(old(log)), level, old(held), names, got);
        AcquireIsOrderly(op, active, Sent(old(log)), level, old(held), names, got);
        var raised := Other();
        if raised {
          out := Raised;
        }
      }
    }

    /** ExecOpCode: the Big Ganeti Lock first, then the levels, and the cluster level freed last.

        Whatever raises or times out on the way: every request is in lock order, the unit runs only
        with all required locks held, each level whose try block was entered is freed exactly once,
        highest first and cluster last, and nothing is left held or pending unless freeing raised. */
    method ExecOpCode() returns (out: Outcome, ghost es: seq<nat>)
      requires GoodLog() && log == [] && held == map[] && failed == {}
      modifies this
      ensures GoodLog() && Nested([], log, es, 0) && es != [] && es[0] == 0 && Active(log) == {}
      ensures forall l <- held :: l.level in failed
      ensures failed == {} ==> held == map[] && !waiting
      ensures Tidy(Sent(log)) && Ran([], log, out)
    {
      hide Good, Entries, Frees, Active, Sent, Bodies, Consistent, Account, Tidy;
      NothingLogged();
      Record(Entered(0));
      ghost var log1 := log;
      out, es := LockClusterAndGoOn();
      ghost var log2 := log;
      var raised := FreeLocksLevel(0);
      if raised {
        out := Raised;
      }
      NestedCons(old(log), log1, log2, log, es, 0);
      SentInOrder(op, log);
      es := [0] + es;
    }

    method LockClusterAndGoOn() returns (out: Outcome, ghost es: seq<nat>)
      requires GoodLog() && held == map[] == Account(log) && failed == {} && Active(log) == {0} && Sent(log) == []
      modifies this
      ensures GoodLog() && Nested(old(log), log, es, 1) && Active(log) == Active(old(log)) && Ran(old(log), log, out)
      ensures forall l <- held :: l.level == 0 || l.level in failed
    {
      hide Good, Entries, Frees, Active, Sent, Bodies, InTurn, Consistent, Tidy, From, RequiredBelow, Account, Orderly,
           Formed, Planned;
      es := [];
      if op.locking {
        var reqs := ClusterRequest(op);
        ClusterInTurn(op, log, held);
        if op.blocking {
          out := OneByOne(reqs);
        } else {
          out := RequestAndWait(reqs);
        }
        if !out.Done? {
          return;
        }
      } else if op.lu.reqBGL {
        out := Raised;
        return;
      }
      var raised := Other();
      if raised {
        out := Raised;
        return;
      }
      assert [] + ClusterRequest(op) == ClusterRequest(op) && LM.Granted(map[], []) == map[];
      ClusterKeeps(op, Sent(log), held);
      out, es := LockAndExecLU(1, []);
    }
  }

  /** The Big Ganeti Lock, exclusively for a unit that requires it. */
  function ClusterRequest(op: Opcode): (r: Requests) {
    [LM.Request(Lock(0, BGL), Some(ModeFor(!op.lu.reqBGL)))]
  }

  lemma ClusterInTurn(op: Opcode, log: Log, held: LM.Holding)
    requires |op.lu.plans| == LEVEL_COUNT
    requires held == map[] == Account(log) && Active(log) == {0} && Sent(log) == []
    ensures InTurn(log, held, ClusterRequest(op)) && Formed(op, log, ClusterRequest(op)) && Planned(op, ClusterRequest(op))
  {
    assert Sent(log) + ClusterRequest(op) == ClusterRequest(op);
  }

  /** The state after the cluster level. */
  lemma ClusterKeeps(op: Opcode, sent: Requests, held: LM.Holding)
    requires |op.lu.plans| == LEVEL_COUNT
    requires sent == (if op.locking then ClusterRequest(op) else []) && held == LM.Granted(map[], sent)
    requires op.lu.reqBGL ==> op.locking
    ensures Consistent(op, {0}, sent, 1, held, []) && Orderly(op, {0}, sent, 1, held, [])
  {
    ClusterOrderly(op, sent, held);
    hide Orderly;
    assert sent + [] == sent;
    GrantedKeys(map[], sent);
    GrantedFrom(map[], sent, []);
    assert [] + sent == sent;
  }

  lemma ClusterOrderly(op: Opcode, sent: Requests, held: LM.Holding)
    requires |op.lu.plans| == LEVEL_COUNT && sent == (if op.locking then ClusterRequest(op) else [])
    requires op.lu.reqBGL ==> op.locking
    ensures Orderly(op, {0}, sent, 1, held, [])
  {
  }

  lemma PendingBelow(op: Opcode, active: set<nat>, sent: Requests, level: nat, held: LM.Holding, pending: Requests)
    requires level <= |op.lu.plans| && Consistent(op, active, sent, level, held, pending)
    ensures forall q <- pending :: q.lock.level < level
  {
  }

  /** What is held is held as planned. */
  lemma ReadyModes(op: Opcode, sent: Requests, held: LM.Holding)
    requires |op.lu.plans| == LEVEL_COUNT && Planned(op, sent) && From(held, sent)
    ensures forall l <- held :: held[l].Exclusive? <==> Alone(op, l)
  {
  }

  lemma NotActive(op: Opcode, active: set<nat>, sent: Requests, level: nat, held: LM.Holding, pending: Requests)
    requires level <= |op.lu.plans| && Consistent(op, active, sent, level, held, pending)
    ensures level !in active
  {
  }

  lemma NothingLogged()
    ensures Active([]) == {} && Entries([]) == [] && Frees([]) == [] && Sent([]) == [] && Bodies([]) == 0
    ensures Account([]) == map[]
  {
  }

  // ----- which requests the lock manager refuses -----

  /** A lock set is asked for after some of its members, which are held. */
  ghost predicate LateSet(held: LM.Holding, reqs: Requests) {
    exists q <- reqs :: IsSet(q.lock) && q.lock !in held && exists k <- held :: k.level == q.lock.level
  }

  /** What is held comes before what is asked for, and in the same mode at the same level. */
  lemma InTurnOrdered(past: Log, held: LM.Holding, reqs: Requests, k: Lock, q: LM.Request)
    requires InTurn(past, held, reqs) && k in held && q in reqs
    ensures LockLe(k, q.lock) && q.mode.Some? && (k.level == q.lock.level ==> held[k] == q.mode.value)
  {
    var sent := Sent(past);
    var all, h := sent + reqs, LM.Request(k, Some(held[k]));
    var i :| 0 <= i < |sent| && sent[i] == h;
    var j :| 0 <= j < |reqs| && reqs[j] == q;
    assert all[i] == h && all[|sent| + j] == q;
  }

  lemma InTurnCoherent(past: Log, held: LM.Holding, reqs: Requests)
    requires InTurn(past, held, reqs)
    ensures LM.Coherent(reqs)
  {
    TidyPart(Sent(past), reqs);
  }

  lemma KeepsOrderUnlessLate(past: Log, held: LM.Holding, reqs: Requests, q: LM.Request)
    requires InTurn(past, held, reqs) && q in reqs
    ensures LM.KeepsGroup(held, q)
    ensures LM.KeepsOrder(held, q) <==>
            !(IsSet(q.lock) && q.lock !in held && exists k <- held :: k.level == q.lock.level)
  {
    hide InTurn;
    forall k | k in held
      ensures k.level == q.lock.level ==> q.mode == Some(held[k])
      ensures q.lock !in held ==> (Earlier(q.lock, k) <==> IsSet(q.lock) && k.level == q.lock.level)
    {
      InTurnOrdered(past, held, reqs, k, q);
      if q.lock !in held {
        LM.EarlierByName(q.lock, k);
      }
    }
    if q.lock in held {
      assert LM.Covered(held, q.lock, held[q.lock]);
    }
  }

  /** The manager refuses a request of an opcode exactly when it asks for a lock set too late. */
  lemma RefusedOnlyForLateSet(past: Log, held: LM.Holding, reqs: Requests)
    requires InTurn(past, held, reqs)
    ensures LM.Accepted(held, reqs) <==> !LateSet(held, reqs)
  {
    InTurnCoherent(past, held, reqs);
    hide InTurn, LM.KeepsOrder, LM.KeepsGroup, LM.Coherent;
    forall i | 0 <= i < |reqs|
      ensures LM.KeepsGroup(held, reqs[i])
      ensures LM.KeepsOrder(held, reqs[i]) <==>
              !(IsSet(reqs[i].lock) && reqs[i].lock !in held && exists k <- held :: k.level == reqs[i].lock.level)
    {
      KeepsOrderUnlessLate(past, held, reqs, reqs[i]);
    }
  }

  /** So it is for every request in the log of an opcode. */
  lemma LoggedRequestsAreAccepted(op: Opcode, log: Log, j: nat)
    requires |op.lu.plans| == LEVEL_COUNT && Good(op, log) && j < |log| && log[j].Requested?
    ensures LM.Accepted(log[j].held, log[j].reqs) <==> !LateSet(log[j].held, log[j].reqs)
  {
    hide LM.Accepted, LateSet, InTurn;
    assert Allowed(op, log[..j], log[j]);
    RefusedOnlyForLateSet(log[..j], log[j].held, log[j].reqs);
  }

  // ----- a request that is refused -----

  const MEMBER := "0"

  function Idle(): (p: LevelPlan) {
    LevelPlan(false, false, false, false, false, false, None, None, [], true, 0)
  }

  /** Names a node lock beside the lock set of the node level, both shared. */
  function Both(): (p: LevelPlan) {
    LevelPlan(true, false, false, false, false, false, Some(Listed([MEMBER, LOCKSET_NAME])), None, [], true, 0)
  }

  function BothUnit(): (op: Opcode) {
    Opcode(LogicalUnit([Idle(), Idle(), Idle(), Both(), Idle(), Idle()], false), true, true)
  }

  function Share(level: nat, name: string): (q: LM.Request) {
    LM.Request(Lock(level, name), Some(LM.Shared))
  }

  lemma BothInOrder()
    ensures RequestFor(Both(), 3, Listed([MEMBER, LOCKSET_NAME])) == [Share(3, MEMBER), Share(3, LOCKSET_NAME)]
  {
    assert NameLe(MEMBER, LOCKSET_NAME);
    assert Sort([LOCKSET_NAME]) == [LOCKSET_NAME];
    assert Sort([MEMBER, LOCKSET_NAME]) == Insert(MEMBER, Sort([LOCKSET_NAME]));
  }

  /** The log is good, and this is what was sent and which levels are active. */
  ghost predicate Reached(op: Opcode, log: Log, sent: Requests, active: set<nat>) {
    && |op.lu.plans| == LEVEL_COUNT && Good(op, log) && Active(log) == active
    && Sent(log) == sent && Account(log) == LM.Granted(map[], sent)
  }

  lemma ThenEntered(op: Opcode, log: Log, sent: Requests, active: set<nat>, level: nat)
    requires Reached(op, log, sent, active)
    ensures Reached(op, log + [Entered(level)], sent, active + {level})
  {
    hide Good, Account;
    GoodSnoc(op, log, Entered(level));
    Snoc(log, Entered(level));
    LM.GrantedNothing(Account(log));
    assert sent + [] == sent;
  }

  /** A blocking request for the next single lock, which is shared as planned. */
  lemma ThenRequested(op: Opcode, log: Log, sent: Requests, active: set<nat>, q: LM.Request)
    requires Reached(op, log, sent, active) && Tidy(sent + [q]) && From(LM.Granted(map[], sent), sent)
    requires op.blocking && q.mode == Some(LM.Shared) && !Alone(op, q.lock)
    requires forall l | l in LM.Granted(map[], sent) || l == q.lock :: l.level in active
    ensures var held := LM.Granted(map[], sent);
            InTurn(log, held, [q]) && Reached(op, log + [Requested(held, [q])], sent + [q], active)
  {
    hide Good, Account, Tidy, From, LM.Granted, Alone;
    var e := Requested(LM.Granted(map[], sent), [q]);
    assert Formed(op, log, [q]);
    GoodSnoc(op, log, e);
    Snoc(log, e);
    LM.GrantedConcat(map[], sent, [q]);
  }

  lemma SharedOnes()
    ensures var bgl, one, all := Share(0, BGL), Share(3, MEMBER), Share(3, LOCKSET_NAME);
            Tidy([] + [bgl]) && Tidy([bgl] + [one]) && Tidy([bgl, one] + [all])
  {
    assert NameLe(MEMBER, LOCKSET_NAME);
  }

  /** The shared locks are held as asked for. */
  lemma SharedHeld()
    ensures var bgl, one := Share(0, BGL), Share(3, MEMBER);
            && LM.Granted(map[], []) == map[] && From(map[], [])
            && LM.Granted(map[], [bgl]) == map[bgl.lock := LM.Shared]
            && From(map[bgl.lock := LM.Shared], [bgl])
            && LM.Granted(map[], [bgl, one]) == map[bgl.lock := LM.Shared, one.lock := LM.Shared]
            && From(map[bgl.lock := LM.Shared, one.lock := LM.Shared], [bgl, one])
  {
    var bgl, one := Share(0, BGL), Share(3, MEMBER);
    var none: LM.Holding := map[];
    assert [bgl][..0] == [] && [bgl, one][..1] == [bgl];
    assert LM.Granted(none, [bgl]) == LM.Apply(none, bgl);
    assert LM.Granted(none, [bgl, one]) == LM.Apply(LM.Granted(none, [bgl]), one);
  }

  lemma NothingReached(op: Opcode)
    requires |op.lu.plans| == LEVEL_COUNT
    ensures Reached(op, [], [], {})
  {
  }

  /** A unit that names a lock and the lock set it belongs to: its requests are in order by name, and the
      manager refuses the second one. */
  lemma LateSetIsRefused() returns (log: Log, held: LM.Holding)
    ensures var asked := RequestFor(Both(), 3, Listed([MEMBER, LOCKSET_NAME]));
            && Reached(BothUnit(), log, ClusterRequest(BothUnit()) + asked, {0, 3})
            && log != [] && log[|log| - 1] == Requested(held, asked[1..])
            && !LM.Accepted(held, asked[1..])
  {
    hide Reached, InTurn, Tidy, From, RequestFor, LM.Accepted, LM.Granted, Share;
    var op, bgl, one, all := BothUnit(), Share(0, BGL), Share(3, MEMBER), Share(3, LOCKSET_NAME);
    var log4 := MemberIsHeld();
    held := map[bgl.lock := LM.Shared, one.lock := LM.Shared];
    SharedOnes();
    SharedHeld();
    SharedLevels();
    ThenRequested(op, log4, [bgl, one], {0, 3}, all);
    log := log4 + [Requested(held, [all])];
    RefusedOnlyForLateSet(log4, held, [all]);
    assert all in [all] && one.lock in held && LateSet(held, [all]);
    BothInOrder();
    assert [bgl, one] + [all] == ClusterRequest(op) + [one, all] && [one, all][1..] == [all];
  }

  lemma SharedLevels()
    ensures var bgl, one, all := Share(0, BGL), Share(3, MEMBER), Share(3, LOCKSET_NAME);
            && bgl.lock.level == 0 && one.lock.level == 3 && all.lock.level == 3
            && IsSet(all.lock) && all.lock != bgl.lock && all.lock != one.lock && ClusterRequest(BothUnit()) == [bgl]
            && bgl.mode == one.mode == all.mode == Some(LM.Shared)
            && !Alone(BothUnit(), bgl.lock) && !Alone(BothUnit(), one.lock) && !Alone(BothUnit(), all.lock)
  {
  }

  lemma MemberIsHeld() returns (log: Log)
    ensures Reached(BothUnit(), log, [Share(0, BGL), Share(3, MEMBER)], {0, 3})
  {
    hide Reached, InTurn, Tidy, From, Share, LM.Granted;
    var op, bgl, one := BothUnit(), Share(0, BGL), Share(3, MEMBER);
    var first: LM.Holding := map[bgl.lock := LM.Shared];
    SharedOnes();
    SharedHeld();
    SharedLevels();
    NothingReached(op);
    ThenEntered(op, [], [], {}, 0);
    log := [] + [Entered(0)];
    ThenRequested(op, log, [], {} + {0}, bgl);
    log := log + [Requested(map[], [bgl])];
    ThenEntered(op, log, [] + [bgl], {} + {0}, 3);
    log := log + [Entered(3)];
    assert [] + [bgl] == [bgl] && {} + {0} + {3} == {0, 3};
    ThenRequested(op, log, [bgl], {0, 3}, one);
    log := log + [Requested(first, [one])];
    assert [bgl] + [one] == [bgl, one];
  }

  // ----- no deadlock -----

  /** From point k on, when it had nothing, the owner has asked the manager only for what the opcode asks
      for; it may also have given locks back. */
  ghost predicate RunsOpcode(events: seq<LM.Event>, k: nat, o: LM.Owner, op: Opcode, log: Log) {
    && k <= |events| && |op.lu.plans| == LEVEL_COUNT && Good(op, log)
    && LM.Held(LM.After(events[..k]), o) == map[] && o !in LM.After(events[..k]).pending
    && forall q <- LM.SentBy(events[k..], o) :: q.mode.Some? ==> q in Sent(log)
  }

  /** An opcode never asks for a lock in two modes. */
  lemma NeverUpgrades(events: seq<LM.Event>, k: nat, o: LM.Owner, op: Opcode, log: Log)
    requires RunsOpcode(events, k, o, op, log) && o in LM.After(events).pending
    ensures LM.PlainlyWaits(LM.After(events), o)
  {
    hide LM.After, LM.SentBy, Good, Sent;
    var s := LM.After(events);
    LM.OriginInRuns(events, k, o);
    SentInOrder(op, log);
    forall q | q in s.pending[o] ensures !LM.Upgrade(LM.Held(s, o), q) {
      if q.lock in LM.Held(s, o) {
        assert LM.Request(q.lock, Some(LM.Held(s, o)[q.lock])) in Sent(log);
      }
    }
  }

  /** Whatever units they run, whichever lock sets and single locks these name: opcodes that wait for locks
      never wait in a circle. */
  lemma OpcodesNeverDeadlock(events: seq<LM.Event>, os: seq<LM.Owner>, ks: seq<nat>, ops: seq<Opcode>, logs: seq<Log>)
    requires |os| == |ks| == |ops| == |logs|
    requires forall i | 0 <= i < |os| && os[i] in LM.After(events).pending ::
               RunsOpcode(events, ks[i], os[i], ops[i], logs[i])
    ensures !LM.Circle(LM.After(events), os)
  {
    hide LM.After, RunsOpcode;
    if LM.Circle(LM.After(events), os) {
      forall i | 0 <= i < |os| ensures LM.PlainlyWaits(LM.After(events), os[i]) {
        assert LM.Edge(LM.After(events), os[i], os[LM.Next(|os|, i)]);
        NeverUpgrades(events, ks[i], os[i], ops[i], logs[i]);
      }
      LM.NoDeadlockInRuns(events, os);
      assert false;
    }
  }

  // ----- what a unit runs with -----

  lemma {:induction false} RequiredHas(op: Opcode, level: nat, top: nat, n: string)
    requires |op.lu.plans| == LEVEL_COUNT && 1 <= level < top <= LEVEL_COUNT
    requires Feasible(op, level) && Wanted(op.lu.plans[level], n) && (op.blocking || !op.lu.plans[level].opportunistic)
    ensures Lock(level, n) in RequiredBelow(op, top)
    decreases top
  {
    if level < top - 1 {
      RequiredHas(op, level, top - 1, n);
    } else {
      WantedExactly(op.lu.plans[level], n);
    }
  }

  /** When a unit runs, its plan could be carried out at every level, and it holds every lock that it wants,
      exclusively exactly at the levels that it does not share, unless the lock was to be had opportunistically;
      then it holds some lock of the level if it wants any. */
  lemma RunsWithWhatItWants(op: Opcode, log: Log, j: nat, level: nat, n: string)
    requires |op.lu.plans| == LEVEL_COUNT && Good(op, log) && j < |log| && log[j].Body?
    requires 1 <= level < LEVEL_COUNT && Wanted(op.lu.plans[level], n)
    ensures Feasible(op, level) && op.locking
    ensures var p, held := op.lu.plans[level], log[j].held;
            if op.blocking || !p.opportunistic then
              Lock(level, n) in held && (held[Lock(level, n)].Exclusive? <==> !p.shared)
            else exists l <- held :: l.level == level && (held[l].Exclusive? <==> !p.shared)
  {
    hide RequiredBelow, Account, Good;
    GoodInit(op, log, j);
    var p, held := op.lu.plans[level], log[j].held;
    assert Feasible(op, level);
    if op.blocking || !p.opportunistic {
      RequiredHas(op, level, LEVEL_COUNT, n);
    } else {
      WantedExactly(p, n);
      assert WantsSome(p);
      var l :| l in held && l.level == level;
      assert held[l].Exclusive? <==> Alone(op, l);
    }
  }

  /** It also holds the Big Ganeti Lock if locks are enabled, exclusively exactly if it requires that, and locks
      are enabled if it does. */
  lemma RunsWithBigLock(op: Opcode, log: Log, j: nat)
    requires |op.lu.plans| == LEVEL_COUNT && Good(op, log) && j < |log| && log[j].Body?
    ensures op.lu.reqBGL ==> op.locking
    ensures var l, held := Lock(0, BGL), log[j].held;
            op.locking ==> l in held && (held[l].Exclusive? <==> op.lu.reqBGL)
  {
    GoodInit(op, log, j);
    hide RequiredBelow, Account, Good;
    if op.locking {
      ClusterIsRequired(op, LEVEL_COUNT);
    }
  }

  // ----- units that exclude each other -----

  /** The owner runs the body of a unit: it had nothing at point k, and since then the manager has granted it
      exactly what the log says that it got. */
  ghost predicate InBody(events: seq<LM.Event>, k: nat, o: LM.Owner, op: Opcode, log: Log) {
    && k <= |events| && |op.lu.plans| == LEVEL_COUNT && Good(op, log) && log != [] && log[|log| - 1].Body?
    && LM.Held(LM.After(events[..k]), o) == map[]
    && LM.GrantsSince(events, k, o) == Won(log)
  }

  /** While the body of a unit runs, the manager has its owner hold every required lock, exclusively exactly
      where the unit wants it alone. */
  lemma BodyHolds(events: seq<LM.Event>, k: nat, o: LM.Owner, op: Opcode, log: Log, l: Lock)
    requires InBody(events, k, o, op, log) && l in RequiredBelow(op, LEVEL_COUNT)
    ensures var h := LM.Held(LM.After(events), o); l in h && (h[l].Exclusive? <==> Alone(op, l))
  {
    hide LM.After, LM.Held, LM.GrantsSince, LM.Granted, RequiredBelow, Alone, FeasibleBelow;
    var past := log[..|log| - 1];
    LM.HeldIsGranted(events, k, o);
    assert Allowed(op, past, log[|log| - 1]);
    assert Won(log) == Won(past) + [] == Won(past);
  }

  /** Units that want overlapping locks, one of them for itself alone, are never in their bodies at once. */
  lemma BodiesExclude(events: seq<LM.Event>, k: nat, o: LM.Owner, op: Opcode, log: Log, l: Lock,
                      k': nat, o': LM.Owner, op': Opcode, log': Log, l': Lock)
    requires InBody(events, k, o, op, log) && InBody(events, k', o', op', log') && o != o'
    requires l in RequiredBelow(op, LEVEL_COUNT) && l' in RequiredBelow(op', LEVEL_COUNT) && Overlap(l, l')
    ensures !Alone(op, l) && !Alone(op', l')
  {
    hide InBody, LM.After, LM.Held, RequiredBelow, Alone;
    BodyHolds(events, k, o, op, log, l);
    BodyHolds(events, k', o', op', log', l');
    LM.MutualExclusion(events, o, o', l, l');
  }

  lemma {:induction false} ClusterIsRequired(op: Opcode, level: nat)
    requires op.locking && 1 <= level <= |op.lu.plans|
    ensures Lock(0, BGL) in RequiredBelow(op, level)
  {
    if level > 1 {
      ClusterIsRequired(op, level - 1);
    }
  }

  /** While a unit that requires the Big Ganeti Lock runs, no other unit with locks does. */
  lemma BigLockRunsAlone(events: seq<LM.Event>, k: nat, o: LM.Owner, op: Opcode, log: Log,
                         k': nat, o': LM.Owner, op': Opcode, log': Log)
    requires InBody(events, k, o, op, log) && InBody(events, k', o', op', log') && o != o'
    requires op.locking && op'.locking
    ensures !op.lu.reqBGL && !op'.lu.reqBGL
  {
    var l := Lock(0, BGL);
    ClusterIsRequired(op, LEVEL_COUNT);
    ClusterIsRequired(op', LEVEL_COUNT);
    BodiesExclude(events, k, o, op, log, l, k', o', op', log', l);
  }
}
