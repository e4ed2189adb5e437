/** The signal and wakeup protocol of the daemon main loop, lib/daemon.py.

    A state machine at the granularity of single statements.  Python runs signal handlers between
    any two statements of the main thread, also between the statements of another handler; the main
    thread goes on when all of them have returned. */
module Mainloop {
  import opened Basics

  datatype Sig = SIGTERM | SIGINT | SIGCHLD

  /** The order in which the decorators fill the signal_handlers dictionary. */
  const SIGNALS: seq<Sig> := [SIGCHLD, SIGTERM, SIGINT]

  const RECV_SIZE := 4096

  /** Where the main thread is: installing _sig_notify, at the head of the loop, in select(), after
      it, or going through the handlers. */
  datatype Pc =
    | Arm(rest: seq<Sig>)
    | Top
    | Select(timed: bool)
    | Recv
    | SetNeed
    | Scan(todo: seq<Sig>)
    | Count(sig: Sig, todo: seq<Sig>)
    | Clear(sig: Sig, todo: seq<Sig>)
    | Ended

  /** What a running handler does next: set `called`, look at _need_signal, lower it, send a byte. */
  datatype Handler = Mark(sig: Sig) | Test | Lower | Send

  datatype State = State(
    pc: Pc,
    handlers: seq<Handler>,      // the innermost one last
    need: bool,                  // _need_signal
    bytes: nat,                  // in the socket pair
    called: set<Sig>,            // handlers whose called flag is up
    armed: set<Sig>,             // handlers that have _sig_notify installed
    shutdowns: nat,              // shutdown_signals
    deferred: bool,              // the shutdown check has a deferred check scheduled
    hasWaitFn: bool,             // shutdown_wait_fn was given
    // history
    raised: set<Sig>,            // every signal ever delivered
    early: set<Sig>,             // delivered before its handler was armed, and still not seen
    saidStop: bool)              // shutdown_wait_fn returned None

  /** What the environment decides: a signal comes in; a handler or the main thread takes its next
      step, where `remaining` and `answer` are what the deferred check's clock and
      shutdown_wait_fn() say. */
  datatype Event = Signal(sig: Sig) | HandlerStep | MainStep(remaining: bool, answer: Option<real>)

  function Init(hasWaitFn: bool): (s: State) {
    State(Arm(SIGNALS), [], true, 0, {}, {}, 0, false, hasWaitFn, {}, {}, false)
  }

  predicate Enabled(s: State, e: Event) {
    match e
    case Signal(_) => s.pc != Ended
    case HandlerStep => s.handlers != []
    case MainStep(_, _) => s.handlers == [] && s.pc != Ended && !(s.pc == Select(false) && s.bytes == 0)
  }

  /** SignalHandler._HandleSignal with _sig_notify and _wakeup. */
  function HandlerNext(s: State): (r: State)
    requires s.handlers != []
  {
    var outer := s.handlers[..|s.handlers| - 1];
    match s.handlers[|s.handlers| - 1]
    case Mark(sig) =>
      if sig in s.armed then s.(handlers := outer + [Test], called := s.called + {sig}, early := s.early - {sig})
      else s.(handlers := outer, called := s.called + {sig}, early := if sig in s.called then s.early else s.early + {sig})
    case Test => if s.need then s.(handlers := outer + [Lower]) else s.(handlers := outer)
    case Lower => s.(handlers := outer + [Send], need := false)
    case Send => s.(handlers := outer, bytes := s.bytes + 1)
  }

  /** The head of the loop: leave it, or go to select() with a timeout. */
  function Decide(s: State, remaining: bool, answer: Option<real>): (r: State)
    ensures KeepsArmed(s, r)
  {
    if s.shutdowns == 1 && s.hasWaitFn then
      // _ShutdownCheck.CanShutdown
      if s.deferred && remaining then s.(pc := Select(true))
      else if answer.None? then s.(pc := Ended, saidStop := true)
      else s.(pc := Select(true), deferred := true)
    else if s.shutdowns >= 1 then s.(pc := Ended)
    else s.(pc := Select(false))
  }

  /** The main thread never disarms a handler, and no signal becomes an early one through it. */
  predicate KeepsArmed(s: State, r: State) {
    r.handlers == s.handlers && s.armed <= r.armed && r.early <= s.early
  }

  /** Installing the handler functions, one signal after the other. */
  function ArmNext(s: State): (r: State)
    requires s.pc.Arm?
    ensures KeepsArmed(s, r)
  {
    if s.pc.rest == [] then s.(pc := Top)
    else s.(pc := Arm(s.pc.rest[1..]), armed := s.armed + {s.pc.rest[0]})
  }

  /** select() and the reading of what it reports. */
  function DrainNext(s: State): (r: State)
    requires s.pc.Select? || s.pc.Recv? || s.pc.SetNeed?
    ensures KeepsArmed(s, r)
  {
    match s.pc
    case Select(_) => if s.bytes > 0 then s.(pc := Recv) else s.(pc := Scan(SIGNALS))
    case Recv => s.(pc := SetNeed, bytes := if s.bytes > RECV_SIZE then s.bytes - RECV_SIZE else 0)
    case SetNeed => s.(pc := Scan(SIGNALS), need := true)
  }

  /** Checking whether a signal was raised. */
  function ScanNext(s: State): (r: State)
    requires s.pc.Scan? || s.pc.Count? || s.pc.Clear?
    ensures KeepsArmed(s, r)
  {
    match s.pc
    case Scan(todo) =>
      if todo == [] then s.(pc := Top)
      else if todo[0] in s.called then s.(pc := Count(todo[0], todo[1..]))
      else s.(pc := Scan(todo[1..]))
    case Count(sig, todo) =>
      s.(pc := Clear(sig, todo), shutdowns := s.shutdowns + if sig in {SIGTERM, SIGINT} then 1 else 0)
    case Clear(sig, todo) =>
      s.(pc := Scan(todo), called := s.called - {sig}, early := s.early - {sig})
  }

  function MainNext(s: State, remaining: bool, answer: Option<real>): (r: State)
    requires Enabled(s, MainStep(remaining, answer))
  {
    match s.pc
    case Arm(_) => ArmNext(s)
    case Top => Decide(s, remaining, answer)
    case Select(_) => DrainNext(s)
    case Recv => DrainNext(s)
    case SetNeed => DrainNext(s)
    case Scan(_) => ScanNext(s)
    case Count(_, _) => ScanNext(s)
    case Clear(_, _) => ScanNext(s)
  }

  function Step(s: State, e: Event): (r: State)
    requires Enabled(s, e)
  {
    match e
    case Signal(sig) => s.(handlers := s.handlers + [Mark(sig)], raised := s.raised + {sig})
    case HandlerStep => HandlerNext(s)
    case MainStep(remaining, answer) => MainNext(s, remaining, answer)
  }

  // ----- no lost signal -----

  /** The main thread will look at this handler's flag before it goes back to select(). */
  predicate WillSee(pc: Pc, sig: Sig) {
    match pc
    case SetNeed => true
    case Scan(todo) => sig in todo
    case Count(x, todo) => sig == x || sig in todo
    case Clear(x, todo) => sig == x || sig in todo
    case _ => false
  }

  /** Some handler is between looking at _need_signal and having sent its byte. */
  predicate Waking(handlers: seq<Handler>) {
    Test in handlers || Lower in handlers || Send in handlers
  }

  /** A lowered flag means that a byte is there, or on its way, or was just taken out. */
  predicate FlagBacked(s: State) {
    !s.need ==> s.bytes > 0 || s.pc == SetNeed || Send in s.handlers
  }

  /** A raised signal will wake the loop, or be looked at without a wakeup. */
  ghost predicate Covered(s: State) {
    forall sig | sig in s.called && sig !in s.early :: s.bytes > 0 || Waking(s.handlers) || WillSee(s.pc, sig)
  }

  ghost predicate Booked(s: State) {
    && s.early <= s.called <= s.raised
    && (forall h <- s.handlers :: h.Mark? ==> h.sig in s.raised)
    && (forall sig :: sig in s.armed || (s.pc.Arm? && sig in s.pc.rest))
    && (s.pc == Recv ==> s.bytes > 0)
    && ((s.pc.Count? || s.pc.Clear?) ==> s.pc.sig in s.called)
  }

  ghost predicate Leaving(s: State) {
    && (s.shutdowns > 0 ==> SIGTERM in s.raised || SIGINT in s.raised)
    && (s.pc == Ended ==> s.shutdowns > 0 && (s.shutdowns == 1 && s.hasWaitFn ==> s.saidStop))
  }

  ghost predicate Inv(s: State) {
    FlagBacked(s) && Covered(s) && Booked(s) && Leaving(s)
  }

  lemma AllSignals(sig: Sig)
    ensures sig in SIGNALS
  {
  }

  lemma InitInv(hasWaitFn: bool)
    ensures Inv(Init(hasWaitFn))
  {
    forall sig ensures sig in SIGNALS {
      AllSignals(sig);
    }
  }

  /** Replacing the innermost handler by the next thing it does, if any. */
  lemma Replaced(outer: seq<Handler>, last: Handler, more: seq<Handler>)
    ensures forall h :: h in outer + [last] <==> h in outer || h == last
    ensures forall h :: h in outer + more <==> h in outer || h in more
  {
  }

  lemma MarkKeeps(s: State, outer: seq<Handler>, sig: Sig)
    requires Inv(s) && s.handlers == outer + [Mark(sig)]
    ensures Inv(HandlerNext(s))
  {
    assert s.handlers[..|s.handlers| - 1] == outer;
    Replaced(outer, Mark(sig), if sig in s.armed then [Test] else []);
    assert outer + [] == outer;
  }

  lemma WakeupKeeps(s: State, outer: seq<Handler>, last: Handler)
    requires Inv(s) && s.handlers == outer + [last] && !last.Mark?
    ensures Inv(HandlerNext(s))
  {
  }

  lemma HandlerKeeps(s: State)
    requires Inv(s) && s.handlers != []
    ensures Inv(HandlerNext(s))
  {
    hide Inv, HandlerNext;
    var outer, last := s.handlers[..|s.handlers| - 1], s.handlers[|s.handlers| - 1];
    assert s.handlers == outer + [last];
    if last.Mark? {
      MarkKeeps(s, outer, last.sig);
    } else {
      WakeupKeeps(s, outer, last);
    }
  }

  lemma ArmKeeps(s: State)
    requires Inv(s) && s.pc.Arm?
    ensures Inv(ArmNext(s))
  {
  }

  lemma DecideKeeps(s: State, remaining: bool, answer: Option<real>)
    requires Inv(s) && s.pc.Top?
    ensures Inv(Decide(s, remaining, answer))
  {
  }

  lemma DrainKeeps(s: State)
    requires Inv(s) && s.handlers == [] && (s.pc.Select? || s.pc.Recv? || s.pc.SetNeed?)
    ensures Inv(DrainNext(s))
  {
    forall sig ensures sig in SIGNALS {
      AllSignals(sig);
    }
  }

  lemma ScanCovered(s: State)
    requires Covered(s) && s.handlers == [] && s.pc.Scan?
    ensures Covered(ScanNext(s))
  {
  }

  lemma ScanKeeps(s: State)
    requires Inv(s) && s.handlers == [] && s.pc.Scan?
    ensures Inv(ScanNext(s))
  {
    hide Covered, Booked, Leaving, FlagBacked, ScanNext;
    ScanCovered(s);
    ScanBooked(s);
    ScanLeaving(s);
  }

  lemma ScanBooked(s: State)
    requires Booked(s) && FlagBacked(s) && s.pc.Scan?
    ensures Booked(ScanNext(s)) && FlagBacked(ScanNext(s))
  {
  }

  lemma ScanLeaving(s: State)
    requires Leaving(s) && s.pc.Scan?
    ensures Leaving(ScanNext(s))
  {
  }

  lemma CountKeeps(s: State)
    requires Inv(s) && s.handlers == [] && (s.pc.Count? || s.pc.Clear?)
    ensures Inv(ScanNext(s))
  {
  }

  lemma MainKeeps(s: State, remaining: bool, answer: Option<real>)
    requires Inv(s) && Enabled(s, MainStep(remaining, answer))
    ensures Inv(MainNext(s, remaining, answer))
  {
    hide Inv, ArmNext, Decide, DrainNext, ScanNext;
    match s.pc
    case Arm(_) => ArmKeeps(s);
    case Top => DecideKeeps(s, remaining, answer);
    case Select(_) => DrainKeeps(s);
    case Recv => DrainKeeps(s);
    case SetNeed => DrainKeeps(s);
    case Scan(_) => ScanKeeps(s);
    case Count(_, _) => CountKeeps(s);
    case Clear(_, _) => CountKeeps(s);
  }

  lemma SignalKeeps(s: State, sig: Sig)
    requires Inv(s)
    ensures Inv(s.(handlers := s.handlers + [Mark(sig)], raised := s.raised + {sig}))
  {
  }

  lemma StepKeeps(s: State, e: Event)
    requires Inv(s) && Enabled(s, e)
    ensures Inv(Step(s, e))
  {
    hide Inv, MainNext, HandlerNext;
    match e
    case Signal(sig) => SignalKeeps(s, sig);
    case HandlerStep => HandlerKeeps(s);
    case MainStep(remaining, answer) => MainKeeps(s, remaining, answer);
  }

  datatype Run = Run(states: seq<State>, events: seq<Event>) {
    ghost predicate StepAt(i: nat)
      requires i < |events| && |states| == |events| + 1
    {
      Enabled(states[i], events[i]) && Step(states[i], events[i]) == states[i + 1]
    }

    ghost predicate Valid(hasWaitFn: bool) {
      && |states| == |events| + 1
      && states[0] == Init(hasWaitFn)
      && forall i: nat | i < |events| :: StepAt(i)
    }
  }

  lemma {:induction false} RunInv(r: Run, hasWaitFn: bool, i: nat)
    requires r.Valid(hasWaitFn) && i < |r.states|
    ensures Inv(r.states[i])
    decreases i
  {
    if i > 0 {
      RunInv(r, hasWaitFn, i - 1);
      assert r.StepAt(i - 1);
      StepKeeps(r.states[i - 1], r.events[i - 1]);
    } else {
      InitInv(hasWaitFn);
    }
  }

  /** Whenever the main thread is about to block in select() and some raised signal has not been
      looked at, a byte in the socket makes select() return, unless all such signals came in before
      _sig_notify was installed for them. */
  lemma NoLostSignal(r: Run, hasWaitFn: bool, i: nat)
    requires r.Valid(hasWaitFn) && i < |r.states|
    requires r.states[i].pc.Select? && r.states[i].handlers == []
    requires exists sig :: sig in r.states[i].called && sig !in r.states[i].early
    ensures r.states[i].bytes > 0
  {
    RunInv(r, hasWaitFn, i);
    assert !Waking(r.states[i].handlers);
  }

  /** Every signal is delivered after _sig_notify was installed for it. */
  ghost predicate NoneEarly(r: Run)
    requires |r.states| == |r.events| + 1
  {
    forall i | 0 <= i < |r.events| && r.events[i].Signal? :: r.events[i].sig in r.states[i].armed
  }

  ghost predicate AllArmed(s: State) {
    s.early == {} && forall h <- s.handlers :: h.Mark? ==> h.sig in s.armed
  }

  lemma ArmedStep(s: State, e: Event)
    requires AllArmed(s) && Enabled(s, e) && (e.Signal? ==> e.sig in s.armed)
    ensures AllArmed(Step(s, e))
  {
    hide HandlerNext, MainNext;
    match e
    case Signal(_) =>
    case HandlerStep =>
      var outer, last := s.handlers[..|s.handlers| - 1], s.handlers[|s.handlers| - 1];
      assert s.handlers == outer + [last];
      ArmedHandler(s, outer, last);
    case MainStep(remaining, answer) => StaysArmed(s, remaining, answer);
  }

  lemma StaysArmed(s: State, remaining: bool, answer: Option<real>)
    requires Enabled(s, MainStep(remaining, answer))
    ensures KeepsArmed(s, MainNext(s, remaining, answer))
  {
  }

  lemma ArmedHandler(s: State, outer: seq<Handler>, last: Handler)
    requires AllArmed(s) && s.handlers == outer + [last]
    ensures AllArmed(HandlerNext(s))
  {
  }

  lemma {:induction false} ArmedInRuns(r: Run, hasWaitFn: bool, i: nat)
    requires r.Valid(hasWaitFn) && NoneEarly(r) && i < |r.states|
    ensures AllArmed(r.states[i])
    decreases i
  {
    if i > 0 {
      ArmedInRuns(r, hasWaitFn, i - 1);
      assert r.StepAt(i - 1);
      ArmedStep(r.states[i - 1], r.events[i - 1]);
    }
  }

  /** In such a run no raised signal is ever left waiting for the next one. */
  lemma NoLostSignalUnlessEarly(r: Run, hasWaitFn: bool, i: nat)
    requires r.Valid(hasWaitFn) && NoneEarly(r) && i < |r.states|
    requires r.states[i].pc.Select? && r.states[i].handlers == [] && r.states[i].called != {}
    ensures r.states[i].bytes > 0
  {
    ArmedInRuns(r, hasWaitFn, i);
    var sig :| sig in r.states[i].called;
    NoLostSignal(r, hasWaitFn, i);
  }

  // ----- the window before the handlers are armed -----

  /** A stretch of a run, from the first state to the last. */
  ghost predicate Path(r: Run, first: State, last: State) {
    && |r.states| == |r.events| + 1 && r.states[0] == first && r.states[|r.events|] == last
    && forall i: nat | i < |r.events| :: r.StepAt(i)
  }

  lemma Then(r: Run, first: State, mid: State, e: Event) returns (r': Run)
    requires Path(r, first, mid) && Enabled(mid, e)
    ensures Path(r', first, Step(mid, e)) && r'.events == r.events + [e] && r'.states == r.states + [Step(mid, e)]
  {
    r' := Run(r.states + [Step(mid, e)], r.events + [e]);
    forall i: nat | i < |r'.events| ensures r'.StepAt(i) {
      assert i < |r.events| ==> r.StepAt(i);
    }
  }

  function Among(sigs: seq<Sig>): (r: set<Sig>) {
    set x | x in sigs
  }

  /** The main thread installs the next n handler functions, with nothing in between. */
  lemma {:induction false} Arming(r: Run, first: State, mid: State, n: nat) returns (r': Run)
    requires Path(r, first, mid) && mid.pc.Arm? && mid.handlers == [] && n <= |mid.pc.rest|
    ensures Path(r', first, mid.(pc := Arm(mid.pc.rest[n..]), armed := mid.armed + Among(mid.pc.rest[..n])))
    decreases n
  {
    hide Path, Step, Enabled, Among;
    var rest := mid.pc.rest;
    if n == 0 {
      r' := r;
      assert rest[0..] == rest;
      AmongNone(mid.armed, rest);
    } else {
      ArmStep(mid);
      var mid1 := mid.(pc := Arm(rest[1..]), armed := mid.armed + {rest[0]});
      r' := Then(r, first, mid, MainStep(false, None));
      r' := Arming(r', first, mid1, n - 1);
      assert rest[1..][n - 1..] == rest[n..];
      AmongNext(mid.armed, rest, n);
    }
  }

  lemma ArmStep(s: State)
    requires s.pc.Arm? && s.pc.rest != [] && s.handlers == []
    ensures Enabled(s, MainStep(false, None))
    ensures Step(s, MainStep(false, None)) == s.(pc := Arm(s.pc.rest[1..]), armed := s.armed + {s.pc.rest[0]})
  {
    hide Decide, DrainNext, ScanNext, HandlerNext;
  }

  lemma AmongNone(armed: set<Sig>, rest: seq<Sig>)
    ensures armed + Among(rest[..0]) == armed
  {
  }

  lemma AmongNext(armed: set<Sig>, rest: seq<Sig>, n: nat)
    requires 0 < n <= |rest|
    ensures armed + {rest[0]} + Among(rest[1..][..n - 1]) == armed + Among(rest[..n])
  {
    assert rest[..n] == [rest[0]] + rest[1..][..n - 1];
  }

  /** A signal whose handler has no function yet only raises its flag. */
  lemma Stray(r: Run, first: State, mid: State, sig: Sig) returns (r': Run)
    requires Path(r, first, mid) && mid.pc.Arm? && mid.handlers == [] && sig !in mid.armed && mid.called == {} == mid.early
    ensures Path(r', first, mid.(called := {sig}, early := {sig}, raised := mid.raised + {sig}))
  {
    hide Path, Step;
    StraySteps(mid, sig);
    var r1 := Then(r, first, mid, Signal(sig));
    r' := Then(r1, first, Step(mid, Signal(sig)), HandlerStep);
  }

  lemma StraySteps(mid: State, sig: Sig)
    requires mid.pc.Arm? && mid.handlers == [] && sig !in mid.armed && mid.called == {} == mid.early
    ensures Enabled(mid, Signal(sig)) && Enabled(Step(mid, Signal(sig)), HandlerStep)
    ensures Step(Step(mid, Signal(sig)), HandlerStep) ==
            mid.(called := {sig}, early := {sig}, raised := mid.raised + {sig})
  {
    hide MainNext;
    var mid1 := Step(mid, Signal(sig));
    assert mid1.handlers == [Mark(sig)] && mid1.handlers[..0] == [];
    assert {} + {sig} == {sig};
  }

  /** With everything installed and no shutdown requested the main thread goes to select(). */
  lemma GoesToSleep(r: Run, first: State, mid: State) returns (r': Run)
    requires Path(r, first, mid) && mid.pc == Arm([]) && mid.handlers == [] && mid.shutdowns == 0
    ensures Path(r', first, mid.(pc := Select(false)))
  {
    hide Path;
    var r1 := Then(r, first, mid, MainStep(false, None));
    r' := Then(r1, first, mid.(pc := Top), MainStep(false, None));
  }

  /** Nothing but another signal can happen. */
  ghost predicate Stuck(s: State) {
    forall e | Enabled(s, e) :: e.Signal?
  }

  /** A signal that comes in before its handler function is installed is lost, at whatever point of
      the installation that is: with no further signal the daemon blocks for good although the
      flag is up. */
  lemma EarlySignalIsLost(sig: Sig, k: nat, hasWaitFn: bool) returns (r: Run)
    requires k <= |SIGNALS| && sig !in SIGNALS[..k]
    ensures r.Valid(hasWaitFn)
    ensures var s := r.states[|r.states| - 1];
            && s.called == {sig} && s.early == {sig} && s.handlers == []
            && s.pc == Select(false) && s.bytes == 0 && Stuck(s)
  {
    var s0 := Init(hasWaitFn);
    r := Run([s0], []);
    assert Path(r, s0, s0);
    r := Arming(r, s0, s0, k);
    var s1 := s0.(pc := Arm(SIGNALS[k..]), armed := {} + Among(SIGNALS[..k]));
    r := Stray(r, s0, s1, sig);
    var s2 := s1.(called := {sig}, early := {sig}, raised := s1.raised + {sig});
    var n := |SIGNALS| - k;
    r := Arming(r, s0, s2, n);
    assert SIGNALS[k..][n..] == [];
    r := GoesToSleep(r, s0, s2.(pc := Arm([]), armed := s2.armed + Among(SIGNALS[k..][..n])));
  }

  /** Nothing wakes the loop, now or later. */
  ghost predicate Quiet(s: State) {
    s.bytes == 0 && !Waking(s.handlers)
  }

  /** Up to the first select() early signals alone make no noise; the first look at the flags takes all of
      them down. */
  ghost predicate EarlyIsQuiet(s: State) {
    match s.pc
    case Arm(_) => s.called <= s.early ==> Quiet(s)
    case Top => s.early != {} && s.called <= s.early ==> Quiet(s)
    case Select(_) => s.early != {} && s.called <= s.early ==> Quiet(s)
    case Scan(todo) => s.early <= Among(todo)
    case Count(sig, todo) => s.early <= {sig} + Among(todo)
    case Clear(sig, todo) => s.early <= {sig} + Among(todo)
    case _ => true
  }

  lemma QuietHandler(s: State, outer: seq<Handler>, last: Handler)
    requires Inv(s) && EarlyIsQuiet(s) && s.handlers == outer + [last]
    ensures EarlyIsQuiet(HandlerNext(s))
  {
    hide Covered, FlagBacked, Leaving, Among;
    assert s.handlers[..|s.handlers| - 1] == outer;
    if last.Mark? {
      Replaced(outer, last, []);
      assert outer + [] == outer;
      assert last.sig in HandlerNext(s).called;
    } else {
      assert Waking(s.handlers);
    }
  }

  lemma QuietScan(s: State)
    requires Inv(s) && EarlyIsQuiet(s) && (s.pc.Scan? || s.pc.Count? || s.pc.Clear?)
    ensures EarlyIsQuiet(ScanNext(s))
  {
    hide Covered, FlagBacked, Leaving, Quiet;
  }

  lemma QuietDrain(s: State)
    requires s.pc.Select? || s.pc.Recv? || s.pc.SetNeed?
    ensures EarlyIsQuiet(DrainNext(s))
  {
    forall sig ensures sig in SIGNALS {
      AllSignals(sig);
    }
  }

  lemma QuietStart(s: State, remaining: bool, answer: Option<real>)
    requires EarlyIsQuiet(s) && (s.pc.Arm? || s.pc.Top?)
    ensures s.pc.Arm? ==> EarlyIsQuiet(ArmNext(s))
    ensures s.pc.Top? ==> EarlyIsQuiet(Decide(s, remaining, answer))
  {
    hide Among;
  }

  lemma QuietStep(s: State, e: Event)
    requires Inv(s) && EarlyIsQuiet(s) && Enabled(s, e)
    ensures EarlyIsQuiet(Step(s, e))
  {
    hide Inv, HandlerNext, ArmNext, Decide, DrainNext, ScanNext;
    match e
    case Signal(sig) => QuietSignal(s, sig);
    case HandlerStep =>
      var outer, last := s.handlers[..|s.handlers| - 1], s.handlers[|s.handlers| - 1];
      assert s.handlers == outer + [last];
      QuietHandler(s, outer, last);
    case MainStep(remaining, answer) =>
      match s.pc
      case Arm(_) => QuietStart(s, remaining, answer);
      case Top => QuietStart(s, remaining, answer);
      case Select(_) => QuietDrain(s);
      case Recv => QuietDrain(s);
      case SetNeed => QuietDrain(s);
      case Scan(_) => QuietScan(s);
      case Count(_, _) => QuietScan(s);
      case Clear(_, _) => QuietScan(s);
  }

  lemma QuietSignal(s: State, sig: Sig)
    requires EarlyIsQuiet(s)
    ensures EarlyIsQuiet(s.(handlers := s.handlers + [Mark(sig)], raised := s.raised + {sig}))
  {
  }

  lemma {:induction false} QuietInRuns(r: Run, hasWaitFn: bool, i: nat)
    requires r.Valid(hasWaitFn) && i < |r.states|
    ensures EarlyIsQuiet(r.states[i])
    decreases i
  {
    if i > 0 {
      QuietInRuns(r, hasWaitFn, i - 1);
      RunInv(r, hasWaitFn, i - 1);
      assert r.StepAt(i - 1);
      QuietStep(r.states[i - 1], r.events[i - 1]);
    }
  }

  /** In every run: about to block in select() with flags up, there is no byte exactly when all these flags
      went up before their handler functions were installed; without a timeout the daemon then is stuck. */
  lemma LostExactlyWhenEarly(r: Run, hasWaitFn: bool, i: nat)
    requires r.Valid(hasWaitFn) && i < |r.states|
    requires r.states[i].pc.Select? && r.states[i].handlers == [] && r.states[i].called != {}
    ensures r.states[i].bytes == 0 <==> r.states[i].called <= r.states[i].early
    ensures r.states[i].pc == Select(false) ==> (Stuck(r.states[i]) <==> r.states[i].called <= r.states[i].early)
  {
    var s := r.states[i];
    QuietInRuns(r, hasWaitFn, i);
    if !(s.called <= s.early) {
      NoLostSignal(r, hasWaitFn, i);
      assert Enabled(s, MainStep(false, None));
    }
  }

  // ----- the window between the test of a flag and its clearing -----

  /** The handler of a signal that comes in runs to its end. */
  lemma HandlerRuns(r: Run, first: State, mid: State, sig: Sig) returns (r': Run)
    requires Path(r, first, mid) && mid.pc != Ended && mid.handlers == [] && sig in mid.armed
    ensures Path(r', first, mid.(called := mid.called + {sig}, early := mid.early - {sig}, raised := mid.raised + {sig},
                                 need := false, bytes := mid.bytes + if mid.need then 1 else 0))
    ensures r.events < r'.events && r'.events[|r.events|] == Signal(sig)
    ensures |r'.states| == |r'.events| + 1 && MarksIn(r', |r.events| + 1, mid.pc, sig)
  {
    hide Path, MarksIn;
    var r1 := HandlerMarks(r, first, mid, sig);
    var s := mid.(handlers := [Test], called := mid.called + {sig}, early := mid.early - {sig}, raised := mid.raised + {sig});
    r' := HandlerWakes(r1, first, s, |r.events| + 1, mid.pc, sig);
  }

  /** The handler comes in and puts the flag up. */
  lemma HandlerMarks(r: Run, first: State, mid: State, sig: Sig) returns (r': Run)
    requires Path(r, first, mid) && mid.pc != Ended && mid.handlers == [] && sig in mid.armed
    ensures Path(r', first, mid.(handlers := [Test], called := mid.called + {sig}, early := mid.early - {sig},
                                 raised := mid.raised + {sig}))
    ensures r.events < r'.events && r'.events[|r.events|] == Signal(sig)
    ensures |r'.states| == |r'.events| + 1 && MarksIn(r', |r.events| + 1, mid.pc, sig)
  {
    PathEnds(r, first, mid);
    hide Path, Step, MarksIn, Enabled;
    SignalStep(mid, sig);
    var r1 := Then(r, first, mid, Signal(sig));
    var s := mid.(handlers := [Mark(sig)], raised := mid.raised + {sig});
    PathEnds(r1, first, s);
    MarkStep(s, sig);
    r' := Then(r1, first, s, HandlerStep);
    var k := |r.events| + 1;
    assert r'.states[k] == s && r'.events[k] == HandlerStep && s.handlers[0] == Mark(sig);
    FirstMark(r', k, mid.pc, sig);
  }

  lemma FirstMark(r: Run, k: nat, pc: Pc, sig: Sig)
    requires |r.states| == |r.events| + 1 == k + 2 && MarksAt(r, k, sig) && r.states[k].pc == pc
    requires sig in r.states[k + 1].called
    ensures MarksIn(r, k, pc, sig)
  {
  }

  /** What the handler does after it has put the flag up. */
  lemma HandlerWakes(r: Run, first: State, s: State, k: nat, pc: Pc, sig: Sig) returns (r': Run)
    requires Path(r, first, s) && s.handlers == [Test] && sig in s.called
    requires |r.states| == |r.events| + 1 && MarksIn(r, k, pc, sig)
    ensures Path(r', first, s.(handlers := [], need := false, bytes := s.bytes + if s.need then 1 else 0))
    ensures r.events <= r'.events && |r'.states| == |r'.events| + 1 && MarksIn(r', k, pc, sig)
  {
    hide Path, Step, MarksIn;
    TestStep(s);
    r' := ThenHandler(r, first, s, k, pc, sig);
    if s.need {
      LowerStep(s.(handlers := [Lower]));
      r' := ThenHandler(r', first, s.(handlers := [Lower]), k, pc, sig);
      SendStep(s.(handlers := [Send], need := false));
      r' := ThenHandler(r', first, s.(handlers := [Send], need := false), k, pc, sig);
    }
  }

  lemma ThenHandler(r: Run, first: State, mid: State, k: nat, pc: Pc, sig: Sig) returns (r': Run)
    requires Path(r, first, mid) && mid.handlers != [] && sig in Step(mid, HandlerStep).called
    requires |r.states| == |r.events| + 1 && MarksIn(r, k, pc, sig)
    ensures Path(r', first, Step(mid, HandlerStep)) && r.events <= r'.events
    ensures |r'.states| == |r'.events| + 1 && MarksIn(r', k, pc, sig)
  {
    hide Path, Step;
    r' := Then(r, first, mid, HandlerStep);
  }

  /** At k the handler puts the flag up while the main thread is at pc, and it stays up. */
  ghost predicate MarksIn(r: Run, k: nat, pc: Pc, sig: Sig)
    requires |r.states| == |r.events| + 1
  {
    MarksAt(r, k, sig) && r.states[k].pc == pc && forall m | k < m < |r.states| :: sig in r.states[m].called
  }

  lemma PathEnds(r: Run, first: State, last: State)
    requires Path(r, first, last)
    ensures |r.states| == |r.events| + 1 && r.states[|r.events|] == last
  {
  }

  lemma SignalStep(s: State, sig: Sig)
    requires s.pc != Ended && s.handlers == []
    ensures Enabled(s, Signal(sig)) && Step(s, Signal(sig)) == s.(handlers := [Mark(sig)], raised := s.raised + {sig})
  {
    hide MainNext, HandlerNext;
  }

  lemma MarkStep(s: State, sig: Sig)
    requires s.handlers == [Mark(sig)] && sig in s.armed
    ensures Enabled(s, HandlerStep)
    ensures Step(s, HandlerStep) == s.(handlers := [Test], called := s.called + {sig}, early := s.early - {sig})
  {
    hide MainNext;
    assert s.handlers[..0] + [Test] == [Test];
  }

  lemma TestStep(s: State)
    requires s.handlers == [Test]
    ensures Step(s, HandlerStep) == if s.need then s.(handlers := [Lower]) else s.(handlers := [])
  {
    hide MainNext;
    assert s.handlers[..0] == [] && s.handlers[..0] + [Lower] == [Lower];
  }

  lemma LowerStep(s: State)
    requires s.handlers == [Lower]
    ensures Step(s, HandlerStep) == s.(handlers := [Send], need := false)
  {
    hide MainNext;
    assert s.handlers[..0] + [Send] == [Send];
  }

  lemma SendStep(s: State)
    requires s.handlers == [Send]
    ensures Step(s, HandlerStep) == s.(handlers := [], bytes := s.bytes + 1)
  {
    hide MainNext;
    assert s.handlers[..0] == [];
  }

  /** From everything installed to the point where SIGTERM has been counted and its flag is still up. */
  lemma FirstIsCounted(r: Run, first: State, mid: State) returns (r': Run)
    requires Path(r, first, mid) && mid.pc == Select(false) && mid.handlers == [] && mid.need && mid.bytes == 0
    requires mid.armed == Among(SIGNALS) && mid.called == {} && mid.early == {} && mid.shutdowns == 0
    ensures Path(r', first, mid.(pc := Clear(SIGTERM, [SIGINT]), called := {SIGTERM}, raised := mid.raised + {SIGTERM},
                                 shutdowns := 1))
    ensures r.events < r'.events && r'.events[|r.events|] == Signal(SIGTERM)
  {
    hide Path, Step;
    var e := MainStep(false, None);
    r' := HandlerRuns(r, first, mid, SIGTERM);
    var s := mid.(called := {SIGTERM}, raised := mid.raised + {SIGTERM}, need := false, bytes := 1);
    assert mid.called + {SIGTERM} == {SIGTERM} && mid.early - {SIGTERM} == mid.early;
    DrainSteps(s);
    r' := Then(r', first, s, e);
    r' := Then(r', first, s.(pc := Recv), e);
    r' := Then(r', first, s.(pc := SetNeed, bytes := 0), e);
    s := s.(bytes := 0, need := true);
    ScanSteps(s);
    r' := Then(r', first, s.(pc := Scan(SIGNALS)), e);
    r' := Then(r', first, s.(pc := Scan([SIGTERM, SIGINT])), e);
    r' := Then(r', first, s.(pc := Count(SIGTERM, [SIGINT])), e);
  }

  /** From a return of select() to the scan of the flags. */
  lemma DrainSteps(s: State)
    requires s.pc == Select(false) && s.handlers == [] && s.bytes == 1
    ensures Step(s, MainStep(false, None)) == s.(pc := Recv)
    ensures Step(s.(pc := Recv), MainStep(false, None)) == s.(pc := SetNeed, bytes := 0)
    ensures Step(s.(pc := SetNeed, bytes := 0), MainStep(false, None)) == s.(pc := Scan(SIGNALS), bytes := 0, need := true)
  {
    hide ArmNext, Decide, ScanNext, HandlerNext;
  }

  lemma ScanSteps(s: State)
    requires s.handlers == [] && s.called == {SIGTERM} && s.shutdowns == 0
    ensures Step(s.(pc := Scan(SIGNALS)), MainStep(false, None)) == s.(pc := Scan([SIGTERM, SIGINT]))
    ensures Step(s.(pc := Scan([SIGTERM, SIGINT])), MainStep(false, None)) == s.(pc := Count(SIGTERM, [SIGINT]))
    ensures Step(s.(pc := Count(SIGTERM, [SIGINT])), MainStep(false, None)) ==
            s.(pc := Clear(SIGTERM, [SIGINT]), shutdowns := 1)
  {
    hide ArmNext, Decide, DrainNext, HandlerNext;
    assert SIGNALS[1..] == [SIGTERM, SIGINT] && [SIGTERM, SIGINT][1..] == [SIGINT];
  }

  /** A run in which SIGTERM comes in twice and is counted once: the second time between the counting and
      the clearing of its flag, which takes it down uncounted. */
  lemma SecondSignalIsMerged(hasWaitFn: bool) returns (r: Run, i: nat, j: nat, k: nat)
    ensures r.Valid(hasWaitFn)
    ensures i < j < k < |r.events| && r.events[i] == r.events[j] == Signal(SIGTERM)
    ensures MarksAt(r, k, SIGTERM) && Clearing(r.states[k], SIGTERM) && DownAt(r, k, |r.events|, SIGTERM)
    ensures forall m: nat | k <= m < |r.events| :: !CountsAt(r, m, SIGTERM)
    ensures var s := r.states[|r.states| - 1]; s.pc == Scan([SIGINT]) && s.called == {} && s.shutdowns == 1
  {
    hide Step;
    var s0 := Init(hasWaitFn);
    r := Run([s0], []);
    assert Path(r, s0, s0);
    r := Arming(r, s0, s0, |SIGNALS|);
    var s1 := s0.(pc := Arm([]), armed := Among(SIGNALS));
    assert SIGNALS[|SIGNALS|..] == [] && SIGNALS[..|SIGNALS|] == SIGNALS && {} + Among(SIGNALS) == Among(SIGNALS);
    r := GoesToSleep(r, s0, s1);
    i := |r.events|;
    r := FirstIsCounted(r, s0, s1.(pc := Select(false)));
    var s2 := s1.(pc := Clear(SIGTERM, [SIGINT]), called := {SIGTERM}, raised := {} + {SIGTERM}, shutdowns := 1);
    j := |r.events|;
    r := HandlerRuns(r, s0, s2, SIGTERM);
    var s3 := s2.(called := s2.called + {SIGTERM}, early := s2.early - {SIGTERM}, raised := s2.raised + {SIGTERM},
                  need := false, bytes := 1);
    ClearStep(s3, SIGTERM, [SIGINT]);
    k := j + 1;
    r := Then(r, s0, s3, MainStep(false, None));
    PathEnds(r, s0, Step(s3, MainStep(false, None)));
    MergedExactlyWhileClearing(r, hasWaitFn, k, |r.events|, SIGTERM);
  }

  lemma ClearStep(s: State, sig: Sig, todo: seq<Sig>)
    requires s.pc == Clear(sig, todo) && s.handlers == []
    ensures Enabled(s, MainStep(false, None))
    ensures Step(s, MainStep(false, None)) == s.(pc := Scan(todo), called := s.called - {sig}, early := s.early - {sig})
  {
  }

  /** The handler of an armed signal puts its flag up. */
  ghost predicate MarksAt(r: Run, i: nat, sig: Sig)
    requires |r.states| == |r.events| + 1
  {
    && i < |r.events| && r.events[i].HandlerStep? && r.states[i].handlers != []
    && r.states[i].handlers[|r.states[i].handlers| - 1] == Mark(sig) && sig in r.states[i].armed
  }

  /** The main thread counts the signal. */
  ghost predicate CountsAt(r: Run, k: nat, sig: Sig)
    requires |r.states| == |r.events| + 1
  {
    k < |r.events| && r.events[k].MainStep? && r.states[k].pc.Count? && r.states[k].pc.sig == sig
  }

  /** After i the flag goes down for the first time at j. */
  ghost predicate DownAt(r: Run, i: nat, j: nat, sig: Sig) {
    i < j < |r.states| && sig !in r.states[j].called && forall k | i < k < j :: sig in r.states[k].called
  }

  predicate Clearing(s: State, sig: Sig) {
    s.pc.Clear? && s.pc.sig == sig
  }

  lemma ClearingSteps(s: State, e: Event, sig: Sig)
    requires Enabled(s, e)
    ensures !e.MainStep? ==> Step(s, e).pc == s.pc && s.called <= Step(s, e).called
    ensures e.MainStep? && Clearing(Step(s, e), sig) ==> s.pc.Count? && s.pc.sig == sig
    ensures e.MainStep? && sig in s.called && sig !in Step(s, e).called ==> Clearing(s, sig)
    ensures e.MainStep? && Clearing(s, sig) ==> sig !in Step(s, e).called
  {
    hide MainNext, HandlerNext;
    match e
    case Signal(_) =>
    case HandlerStep => ClearingHandler(s);
    case MainStep(remaining, answer) => ClearingMain(s, remaining, answer, sig);
  }

  lemma ClearingHandler(s: State)
    requires s.handlers != []
    ensures HandlerNext(s).pc == s.pc && s.called <= HandlerNext(s).called
  {
  }

  lemma ClearingMain(s: State, remaining: bool, answer: Option<real>, sig: Sig)
    requires Enabled(s, MainStep(remaining, answer))
    ensures var s' := MainNext(s, remaining, answer);
            && (Clearing(s', sig) ==> s.pc.Count? && s.pc.sig == sig)
            && (sig in s.called && sig !in s'.called ==> Clearing(s, sig))
            && (Clearing(s, sig) ==> sig !in s'.called)
  {
    hide ArmNext, Decide, DrainNext, ScanNext, KeepsArmed;
    match s.pc
    case Arm(_) => ArmingKeepsFlags(s);
    case Top => DecidingKeepsFlags(s, remaining, answer);
    case Select(_) => DrainingKeepsFlags(s);
    case Recv => DrainingKeepsFlags(s);
    case SetNeed => DrainingKeepsFlags(s);
    case Scan(_) => ClearingScan(s, sig);
    case Count(_, _) => ClearingScan(s, sig);
    case Clear(_, _) => ClearingScan(s, sig);
  }

  lemma ArmingKeepsFlags(s: State)
    requires s.pc.Arm?
    ensures !ArmNext(s).pc.Clear? && ArmNext(s).called == s.called
  {
  }

  lemma DecidingKeepsFlags(s: State, remaining: bool, answer: Option<real>)
    ensures !Decide(s, remaining, answer).pc.Clear? && Decide(s, remaining, answer).called == s.called
  {
  }

  lemma DrainingKeepsFlags(s: State)
    requires s.pc.Select? || s.pc.Recv? || s.pc.SetNeed?
    ensures !DrainNext(s).pc.Clear? && DrainNext(s).called == s.called
  {
  }

  lemma ClearingScan(s: State, sig: Sig)
    requires s.pc.Scan? || s.pc.Count? || s.pc.Clear?
    ensures Clearing(ScanNext(s), sig) ==> s.pc.Count? && s.pc.sig == sig
    ensures sig in s.called && sig !in ScanNext(s).called ==> Clearing(s, sig)
    ensures Clearing(s, sig) ==> sig !in ScanNext(s).called
  {
    hide KeepsArmed;
  }

  /** Whoever comes to clear the flag after i was clearing it already, or has counted in between. */
  lemma {:induction false} CountedBeforeClearing(r: Run, hasWaitFn: bool, i: nat, k: nat, sig: Sig)
    requires r.Valid(hasWaitFn) && i <= k < |r.states|
    requires Clearing(r.states[k], sig) && !Clearing(r.states[i], sig)
    ensures exists m: nat | i <= m < k :: CountsAt(r, m, sig)
    decreases k
  {
    hide Step, Enabled;
    assert r.StepAt(k - 1);
    ClearingSteps(r.states[k - 1], r.events[k - 1], sig);
    if r.events[k - 1].MainStep? {
      assert CountsAt(r, k - 1, sig);
    } else {
      CountedBeforeClearing(r, hasWaitFn, i, k - 1, sig);
      var m: nat :| i <= m < k - 1 && CountsAt(r, m, sig);
    }
  }

  /** Whoever is clearing the flag does nothing else until it is down. */
  lemma {:induction false} StaysClearing(r: Run, hasWaitFn: bool, i: nat, j: nat, k: nat, sig: Sig)
    requires r.Valid(hasWaitFn) && DownAt(r, i, j, sig) && i <= k < j
    requires Clearing(r.states[i], sig) && (i < |r.events| ==> !r.events[i].MainStep?)
    ensures Clearing(r.states[k], sig)
    decreases k
  {
    hide Step, Enabled;
    if i < k {
      StaysClearing(r, hasWaitFn, i, j, k - 1, sig);
      assert r.StepAt(k - 1);
      ClearingSteps(r.states[k - 1], r.events[k - 1], sig);
    }
  }

  /** A signal whose handler put the flag up is taken down uncounted exactly when the main thread was just
      clearing the flag for an earlier one. */
  lemma MergedExactlyWhileClearing(r: Run, hasWaitFn: bool, i: nat, j: nat, sig: Sig)
    requires r.Valid(hasWaitFn) && MarksAt(r, i, sig) && DownAt(r, i, j, sig)
    ensures (forall k: nat | i <= k < j :: !CountsAt(r, k, sig)) <==> Clearing(r.states[i], sig)
  {
    hide Step, Enabled;
    if Clearing(r.states[i], sig) {
      forall k: nat | i <= k < j ensures !CountsAt(r, k, sig) {
        StaysClearing(r, hasWaitFn, i, j, k, sig);
      }
    } else {
      MarkedIsUp(r, hasWaitFn, i, sig);
      assert r.StepAt(j - 1);
      ClearingSteps(r.states[j - 1], r.events[j - 1], sig);
      CountedBeforeClearing(r, hasWaitFn, i, j - 1, sig);
    }
  }

  lemma MarkedIsUp(r: Run, hasWaitFn: bool, i: nat, sig: Sig)
    requires r.Valid(hasWaitFn) && MarksAt(r, i, sig)
    ensures sig in r.states[i + 1].called
  {
    assert r.StepAt(i);
  }

  // ----- leaving the loop -----

  /** The loop ends only after a shutdown signal; with one such signal and a wait function only after
      that function returned None. */
  lemma EndsOnlyOnShutdown(r: Run, hasWaitFn: bool, i: nat)
    requires r.Valid(hasWaitFn) && i < |r.states| && r.states[i].pc == Ended
    ensures SIGTERM in r.states[i].raised || SIGINT in r.states[i].raised
    ensures r.states[i].shutdowns == 1 && r.states[i].hasWaitFn ==> r.states[i].saidStop
  {
    RunInv(r, hasWaitFn, i);
  }

  /** The main thread counts a shutdown signal. */
  ghost predicate CountsShutdown(r: Run, k: nat)
    requires |r.states| == |r.events| + 1
  {
    CountsAt(r, k, SIGTERM) || CountsAt(r, k, SIGINT)
  }

  /** How often it did so in the first i steps. */
  ghost function Counted(r: Run, i: nat): (n: nat)
    requires |r.states| == |r.events| + 1 && i <= |r.events|
  {
    if i == 0 then 0 else Counted(r, i - 1) + if CountsShutdown(r, i - 1) then 1 else 0
  }

  /** The wait function asks for more time. */
  ghost predicate Postpones(r: Run, hasWaitFn: bool, k: nat)
    requires |r.states| == |r.events| + 1 && k < |r.events|
  {
    && hasWaitFn && r.states[k].pc.Top? && r.events[k].MainStep? && r.events[k].answer.Some?
    && Counted(r, k) == 1
  }

  ghost function Postponed(r: Run, hasWaitFn: bool, i: nat): (b: bool)
    requires |r.states| == |r.events| + 1 && i <= |r.events|
  {
    exists k: nat | k < i :: Postpones(r, hasWaitFn, k)
  }

  /** Neither the count nor the deferred check nor the place of the main thread changes. */
  predicate SameAccount(s: State, s': State) {
    s'.hasWaitFn == s.hasWaitFn && s'.shutdowns == s.shutdowns && s'.deferred == s.deferred
  }

  lemma HandlerAccount(s: State)
    requires s.handlers != []
    ensures SameAccount(s, HandlerNext(s)) && HandlerNext(s).pc == s.pc
  {
  }

  lemma OtherAccount(s: State)
    ensures s.pc.Arm? ==> SameAccount(s, ArmNext(s))
    ensures s.pc.Select? || s.pc.Recv? || s.pc.SetNeed? ==> SameAccount(s, DrainNext(s))
    ensures s.pc.Scan? || s.pc.Clear? ==> SameAccount(s, ScanNext(s))
  {
    hide KeepsArmed;
  }

  /** The count goes up when a shutdown signal is counted; a check is deferred at the head of the loop. */
  lemma ShutdownSteps(s: State, e: Event)
    requires Enabled(s, e)
    ensures var s' := Step(s, e);
            && s'.hasWaitFn == s.hasWaitFn
            && s'.shutdowns == s.shutdowns + (if e.MainStep? && s.pc.Count? && s.pc.sig in {SIGTERM, SIGINT} then 1 else 0)
            && (s'.deferred <==>
                  s.deferred || (e.MainStep? && s.pc.Top? && s.shutdowns == 1 && s.hasWaitFn && e.answer.Some?))
            && (!e.MainStep? ==> s'.pc == s.pc)
  {
    OtherAccount(s);
    hide KeepsArmed, HandlerNext, ArmNext, DrainNext;
    if e.HandlerStep? {
      HandlerAccount(s);
    }
  }

  /** In every run the loop's own account is the history: shutdown signals are those counted, and a deferred
      check is scheduled once the wait function has asked for more time. */
  lemma {:induction false} AccountIsHistory(r: Run, hasWaitFn: bool, i: nat)
    requires r.Valid(hasWaitFn) && i < |r.states|
    ensures var s := r.states[i];
            && s.hasWaitFn == hasWaitFn && s.shutdowns == Counted(r, i) && (s.deferred <==> Postponed(r, hasWaitFn, i))
    decreases i
  {
    if i > 0 {
      AccountIsHistory(r, hasWaitFn, i - 1);
      assert r.StepAt(i - 1);
      ShutdownSteps(r.states[i - 1], r.events[i - 1]);
      hide Step, Enabled;
      assert Postponed(r, hasWaitFn, i) <==> Postponed(r, hasWaitFn, i - 1) || Postpones(r, hasWaitFn, i - 1);
    }
  }

  /** At the head of the loop the main thread leaves it if and only if two shutdown signals were counted, or one
      was and there is no wait function, or one was, no deferred check is still to come and the wait function
      answers None. Otherwise it goes to select(), with a timeout if and only if a shutdown signal was counted. */
  lemma EndsExactly(r: Run, hasWaitFn: bool, i: nat)
    requires r.Valid(hasWaitFn) && i < |r.events| && r.states[i].pc.Top? && r.events[i].MainStep?
    ensures var n, pc := Counted(r, i), r.states[i + 1].pc;
            var toCome := Postponed(r, hasWaitFn, i) && r.events[i].remaining;
            && (pc == Ended <==> n >= 2 || (n == 1 && (!hasWaitFn || (!toCome && r.events[i].answer.None?))))
            && (pc != Ended ==> pc == Select(n == 1))
  {
    AccountIsHistory(r, hasWaitFn, i);
    assert r.StepAt(i);
    hide Counted, Postponed;
  }

  /** Enough shutdown signals were counted to leave the loop whatever the wait function says. */
  ghost predicate MustLeave(s: State) {
    s.shutdowns >= 2 || (s.shutdowns >= 1 && !s.hasWaitFn)
  }

  /** An upper bound for the statements up to the end of the loop, without a further select(). */
  function ToGo(pc: Pc): (n: nat) {
    match pc
    case Ended => 0
    case Top => 1
    case Scan(todo) => 2 + 3 * |todo|
    case Count(_, todo) => 4 + 3 * |todo|
    case Clear(_, todo) => 3 + 3 * |todo|
    case _ => 0
  }

  predicate BeyondSelect(pc: Pc) {
    pc.Top? || pc.Scan? || pc.Count? || pc.Clear? || pc.Ended?
  }

  lemma LeavingSteps(s: State, e: Event)
    requires Enabled(s, e) && (MustLeave(s) ==> BeyondSelect(s.pc))
    ensures MustLeave(Step(s, e)) ==> BeyondSelect(Step(s, e).pc)
    ensures MustLeave(s) ==> MustLeave(Step(s, e))
    ensures MustLeave(s) && e.MainStep? ==> ToGo(Step(s, e).pc) < ToGo(s.pc)
  {
    ShutdownSteps(s, e);
    hide KeepsArmed, HandlerNext;
  }

  lemma {:induction false} LeavingInRuns(r: Run, hasWaitFn: bool, i: nat)
    requires r.Valid(hasWaitFn) && i < |r.states|
    ensures MustLeave(r.states[i]) ==> BeyondSelect(r.states[i].pc)
    decreases i
  {
    if i > 0 {
      LeavingInRuns(r, hasWaitFn, i - 1);
      assert r.StepAt(i - 1);
      LeavingSteps(r.states[i - 1], r.events[i - 1]);
    }
  }

  /** The statements of the main thread from i up to j. */
  ghost function MainSteps(r: Run, i: nat, j: nat): (n: nat)
    requires i <= j <= |r.events|
    decreases j
  {
    if i == j then 0 else MainSteps(r, i, j - 1) + if r.events[j - 1].MainStep? then 1 else 0
  }

  /** After a counted shutdown signal without a wait function, and after a second one in any case, the loop
      never reaches select() again, and it ends within a bounded number of statements of the main thread. */
  lemma NeverSelectsAgain(r: Run, hasWaitFn: bool, i: nat, j: nat)
    requires r.Valid(hasWaitFn) && i <= j < |r.states|
    requires Counted(r, i) >= 2 || (Counted(r, i) >= 1 && !hasWaitFn)
    ensures !r.states[j].pc.Select?
    ensures MainSteps(r, i, j) + ToGo(r.states[j].pc) <= ToGo(r.states[i].pc)
    ensures MainSteps(r, i, j) == ToGo(r.states[i].pc) ==> r.states[j].pc == Ended
  {
    LeavesForGood(r, hasWaitFn, i, j);
    hide Counted;
  }

  lemma {:induction false} LeavesForGood(r: Run, hasWaitFn: bool, i: nat, j: nat)
    requires r.Valid(hasWaitFn) && i <= j < |r.states|
    requires Counted(r, i) >= 2 || (Counted(r, i) >= 1 && !hasWaitFn)
    ensures MustLeave(r.states[j]) && BeyondSelect(r.states[j].pc)
    ensures MainSteps(r, i, j) + ToGo(r.states[j].pc) <= ToGo(r.states[i].pc)
    decreases j
  {
    AccountIsHistory(r, hasWaitFn, i);
    LeavingInRuns(r, hasWaitFn, j);
    if i < j {
      LeavesForGood(r, hasWaitFn, i, j - 1);
      assert r.StepAt(j - 1);
      ShutdownSteps(r.states[j - 1], r.events[j - 1]);
      LeavingSteps(r.states[j - 1], r.events[j - 1]);
    }
    hide Counted, Step, Enabled;
  }

  // ----- an idle loop sleeps -----

  /** Nothing to do: no flag is up, no handler runs, no shutdown was counted. */
  predicate Idle(s: State) {
    && s.handlers == [] && s.called == {} && s.shutdowns == 0
    && match s.pc
       case Select(timed) => !timed
       case Recv => s.bytes > 0
       case SetNeed => true
       case Scan(todo) => |todo| <= |SIGNALS|
       case Top => true
       case _ => false
  }

  /** An upper bound for the statements that an idle loop still executes. */
  function Restless(s: State): (n: int) {
    10 * s.bytes +
    match s.pc
    case Recv => -1
    case SetNeed => 7
    case Scan(todo) => 2 + |todo|
    case Top => 1
    case _ => 0
  }

  lemma IdleStep(s: State, remaining: bool, answer: Option<real>)
    requires Idle(s) && Enabled(s, MainStep(remaining, answer))
    ensures Idle(MainNext(s, remaining, answer)) && Restless(MainNext(s, remaining, answer)) < Restless(s)
    ensures Restless(s) >= 0
  {
    hide KeepsArmed, Covered;
  }

  /** Without signals an idle loop does not spin: it comes to rest in select() after at most ten statements
      for every byte in the socket pair. */
  lemma {:induction false} IdleLoopSleeps(r: Run, hasWaitFn: bool, i: nat, j: nat)
    requires r.Valid(hasWaitFn) && i <= j < |r.states| && Idle(r.states[i]) && r.states[i].pc == Select(false)
    requires forall m: nat | i <= m < j :: r.events[m].MainStep?
    ensures Idle(r.states[j]) && j - i + Restless(r.states[j]) <= 10 * r.states[i].bytes
    ensures j - i <= 10 * r.states[i].bytes
    decreases j
  {
    if i < j {
      IdleLoopSleeps(r, hasWaitFn, i, j - 1);
      assert r.StepAt(j - 1);
      IdleStep(r.states[j - 1], r.events[j - 1].remaining, r.events[j - 1].answer);
    }
  }
}
