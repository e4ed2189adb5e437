/** The schedule of lock attempts, lib/mcpu.py:71-138.

    The power formula that makes the timeouts grow is a parameter, and so are the random numbers. */
module LockTimeouts {
  import opened Basics

  function Sum(ts: seq<real>): (r: real) {
    if ts == [] then 0.0 else Sum(ts[..|ts| - 1]) + ts[|ts| - 1]
  }

  lemma SumSnoc(ts: seq<real>, t: real)
    ensures Sum(ts + [t]) == Sum(ts) + t
  {
  }

  ghost predicate Within(ts: seq<real>, lo: real, hi: real) {
    forall i | 0 <= i < |ts| :: lo <= ts[i] <= hi
  }

  function Times(n: int, x: real): (r: real) {
    n as real * x
  }

  lemma TimesNext(n: int, x: real)
    ensures Times(n + 1, x) == Times(n, x) + x && Times(0, x) == 0.0
  {
    assert (n + 1) as real == n as real + 1.0;
    assert (n as real + 1.0) * x == n as real * x + x;
    assert 0.0 * x == 0.0;
  }

  lemma {:induction false} SumBounds(ts: seq<real>, lo: real, hi: real)
    requires Within(ts, lo, hi)
    ensures Times(|ts|, lo) <= Sum(ts) <= Times(|ts|, hi)
  {
    hide Times;
    TimesNext(|ts| - 1, lo);
    TimesNext(|ts| - 1, hi);
    if ts != [] {
      SumBounds(ts[..|ts| - 1], lo, hi);
    }
  }

  /** What the schedule is meant to be: attempts between the two limits that together last for at
      least `total`, with no attempt to spare. */
  ghost predicate Schedule(ts: seq<real>, lo: real, hi: real, total: real) {
    && ts != []
    && Within(ts, lo, hi)
    && total <= Sum(ts)
    && (|ts| > 1 ==> Sum(ts[..|ts| - 1]) < total)
  }

  /** The bounds that follow: fewer than total/lo + 1 attempts, at least total/hi, and together less
      than total + hi. */
  lemma ScheduleBounds(ts: seq<real>, lo: real, hi: real, total: real)
    requires Schedule(ts, lo, hi, total) && 0.0 < lo <= hi && 0.0 < total
    ensures (|ts| - 1) as real * lo < total <= |ts| as real * hi
    ensures total <= Sum(ts) < total + hi
  {
    ScheduleTimes(ts, lo, hi, total);
    hide Sum, Schedule;
  }

  lemma ScheduleTimes(ts: seq<real>, lo: real, hi: real, total: real)
    requires Schedule(ts, lo, hi, total) && 0.0 < lo <= hi && 0.0 < total
    ensures Times(|ts| - 1, lo) < total <= Times(|ts|, hi)
    ensures total <= Sum(ts) < total + hi
  {
    hide Times;
    var init := ts[..|ts| - 1];
    SumBounds(ts, lo, hi);
    SumBounds(init, lo, hi);
    assert Sum(ts) == Sum(init) + ts[|ts| - 1];
    TimesNext(0, lo);
  }

  lemma Fewer(left: real, step: real, lo: real)
    requires 0.0 < lo <= step
    ensures (left - step) / lo <= left / lo - 1.0
  {
    assert (left - step) / lo == left / lo - step / lo;
    assert step / lo >= 1.0;
  }

  function Min(a: real, b: real): (r: real) {
    if b < a then b else a
  }

  function Max(a: real, b: real): (r: real) {
    if b > a then b else a
  }

  /** _CalculateLockAttemptTimeouts */
  method CalculateLockAttemptTimeouts(lo: real, hi: real, total: real, grow: real -> real) returns (result: seq<real>)
    requires 0.0 < lo <= hi && 0.0 < total
    ensures Schedule(result, lo, hi, total)
    ensures result[0] == lo
    ensures forall i | 0 < i < |result| :: result[i] == Max(Min(grow(result[i - 1]), hi), lo)
  {
    result := [lo];
    var runningSum := lo;
    assert Sum(result) == lo;
    hide Sum;
    while runningSum < total
      invariant result != [] && result[0] == lo && runningSum == Sum(result)
      invariant Within(result, lo, hi)
      invariant |result| > 1 ==> Sum(result[..|result| - 1]) < total
      invariant forall i | 0 < i < |result| :: result[i] == Max(Min(grow(result[i - 1]), hi), lo)
      decreases (total - runningSum) / lo
    {
      var timeout := grow(result[|result| - 1]);
      timeout := Min(timeout, hi);
      timeout := Max(timeout, lo);
      Fewer(total - runningSum, timeout, lo);
      SumSnoc(result, timeout);
      assert (result + [timeout])[..|result|] == result;
      result := result + [timeout];
      runningSum := runningSum + timeout;
    }
  }

  /** LockAttemptTimeoutStrategy: the schedule is used up attempt by attempt, each varied by up to
      five percent; after that every attempt blocks. */
  class LockAttemptTimeoutStrategy {
    const schedule: seq<real>
    var position: nat

    constructor (schedule: seq<real>)
      ensures this.schedule == schedule && position == 0
    {
      this.schedule, position := schedule, 0;
    }

    method NextAttempt(random: real) returns (timeout: Option<real>)
      requires 0.0 <= random < 1.0 && position <= |schedule|
      modifies this
      ensures timeout.None? <==> old(position) == |schedule|
      ensures timeout.None? ==> position == old(position)
      ensures timeout.Some? ==> position == old(position) + 1
      ensures timeout.Some? ==> Jittered(schedule[old(position)], random, timeout.value)
    {
      if position == |schedule| {
        return None;
      }
      var t := schedule[position];
      position := position + 1;
      var variationRange := t * 0.1;
      return Some(t + ((random * variationRange) - (variationRange * 0.5)));
    }
  }

  /** t moved by the fraction (random - 0.5) of a tenth of it. */
  predicate Jittered(t: real, random: real, r: real) {
    r == t * (0.95 + 0.1 * random)
  }

  lemma {:induction false} JitteredSum(ts: seq<real>, rs: seq<real>, got: seq<real>)
    requires |rs| == |ts| == |got|
    requires forall i | 0 <= i < |ts| :: ts[i] > 0.0 && 0.0 <= rs[i] < 1.0 && Jittered(ts[i], rs[i], got[i])
    ensures 0.95 * Sum(ts) <= Sum(got)
    ensures Sum(got) <= 1.05 * Sum(ts) && (ts != [] ==> Sum(got) < 1.05 * Sum(ts))
  {
    if ts != [] {
      var k := |ts| - 1;
      JitteredSum(ts[..k], rs[..k], got[..k]);
      JitteredOnce(ts[k], rs[k], got[k]);
    }
  }

  lemma JitteredOnce(t: real, random: real, r: real)
    requires t > 0.0 && 0.0 <= random < 1.0 && Jittered(t, random, r)
    ensures 0.95 * t <= r < 1.05 * t
  {
  }

  /** All attempts of one strategy object up to the first blocking one. */
  method AllAttempts(lo: real, hi: real, total: real, grow: real -> real, random: nat -> real)
    returns (got: seq<real>)
    requires 0.0 < lo <= hi && 0.0 < total
    requires forall i :: 0.0 <= random(i) < 1.0
    ensures 0.95 * total <= Sum(got) < 1.05 * (total + hi)
    ensures (|got| - 1) as real * lo < total <= |got| as real * hi
  {
    hide Sum, Schedule, Jittered;
    var schedule := CalculateLockAttemptTimeouts(lo, hi, total, grow);
    var strategy := new LockAttemptTimeoutStrategy(schedule);
    got := [];
    ghost var rs := [];
    var done := false;
    while !done
      invariant strategy.schedule == schedule && strategy.position == |got| == |rs| <= |schedule|
      invariant forall i | 0 <= i < |got| :: 0.0 <= rs[i] < 1.0 && Jittered(schedule[i], rs[i], got[i])
      invariant done ==> |got| == |schedule|
      decreases |schedule| - |got|, !done
    {
      var timeout := strategy.NextAttempt(random(|got|));
      if timeout.None? {
        done := true;
      } else {
        rs := rs + [random(|got|)];
        got := got + [timeout.value];
      }
    }
    AttemptBounds(schedule, rs, got, lo, hi, total);
  }

  lemma AttemptBounds(ts: seq<real>, rs: seq<real>, got: seq<real>, lo: real, hi: real, total: real)
    requires 0.0 < lo <= hi && 0.0 < total && Schedule(ts, lo, hi, total)
    requires |rs| == |ts| == |got|
    requires forall i | 0 <= i < |ts| :: 0.0 <= rs[i] < 1.0 && Jittered(ts[i], rs[i], got[i])
    ensures 0.95 * total <= Sum(got) < 1.05 * (total + hi)
    ensures (|got| - 1) as real * lo < total <= |got| as real * hi
  {
    JitteredSum(ts, rs, got);
    ScheduleBounds(ts, lo, hi, total);
  }
}
