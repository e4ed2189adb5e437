/** PipeCondition and SingleNotifyPipeCondition of lib/locking.py with their pipe descriptors.

    Each method runs while the lock of the condition is held; wait() is split where it gives the
    lock back (line 272) and where it has it again (line 278).  A thread inside wait() keeps a local
    reference to the single-use condition it started on. */
module PipeConditions {
  import opened Basics
  import opened LockSpec

  type Fd = nat
  type SingleId = nat

  /** A SingleNotifyPipeCondition object. */
  datatype Single = Single(nwaiters: nat, notified: bool, readFd: Option<Fd>, writeFd: Option<Fd>)

  /** One end of a pipe, and the object that opened it. */
  datatype End = End(single: SingleId, reading: bool)

  function WaitersOn(frames: map<Thread, SingleId>, id: SingleId): (r: set<Thread>) {
    set t | t in frames && frames[t] == id
  }

  /** Each object counts the threads that wait on it. */
  ghost predicate Counts(singles: map<SingleId, Single>, frames: map<Thread, SingleId>) {
    && (forall t <- frames :: frames[t] in singles)
    && (forall id <- singles :: singles[id].nwaiters == |WaitersOn(frames, id)|)
  }

  lemma EnterCount(frames: map<Thread, SingleId>, t: Thread, id: SingleId, other: SingleId)
    requires t !in frames
    ensures |WaitersOn(frames[t := id], other)| == |WaitersOn(frames, other)| + if other == id then 1 else 0
  {
    var more := if other == id then {t} else {};
    assert WaitersOn(frames[t := id], other) == WaitersOn(frames, other) + more;
  }

  lemma LeaveCount(frames: map<Thread, SingleId>, t: Thread, other: SingleId)
    requires t in frames
    ensures |WaitersOn(frames - {t}, other)| + (if other == frames[t] then 1 else 0) == |WaitersOn(frames, other)|
  {
    var more := if other == frames[t] then {t} else {};
    assert WaitersOn(frames - {t}, other) + more == WaitersOn(frames, other);
  }

  lemma EnterCounts(singles: map<SingleId, Single>, frames: map<Thread, SingleId>, t: Thread, id: SingleId, s: Single)
    requires Counts(singles, frames) && t !in frames && id in singles && s.nwaiters == singles[id].nwaiters + 1
    ensures Counts(singles[id := s], frames[t := id])
  {
    hide WaitersOn;
    forall other | other in singles
      ensures singles[id := s][other].nwaiters == |WaitersOn(frames[t := id], other)|
    {
      EnterCount(frames, t, id, other);
    }
  }

  lemma LeaveCounts(singles: map<SingleId, Single>, frames: map<Thread, SingleId>, t: Thread, s: Single)
    requires Counts(singles, frames) && t in frames && s.nwaiters + 1 == singles[frames[t]].nwaiters
    ensures Counts(singles[frames[t] := s], frames - {t})
  {
    hide WaitersOn;
    forall other | other in singles
      ensures singles[frames[t] := s][other].nwaiters == |WaitersOn(frames - {t}, other)|
    {
      LeaveCount(frames, t, other);
    }
  }

  lemma SomebodyWaits(singles: map<SingleId, Single>, frames: map<Thread, SingleId>, t: Thread)
    requires Counts(singles, frames) && t in frames
    ensures frames[t] in singles && singles[frames[t]].nwaiters > 0
  {
    assert t in WaitersOn(frames, frames[t]);
  }

  /** Who waits, and whose pipe was already closed. */
  ghost function Told(singles: map<SingleId, Single>, frames: map<Thread, SingleId>): (r: map<Thread, bool>)
    requires Counts(singles, frames)
  {
    map t | t in frames :: singles[frames[t]].notified
  }

  /** The read end is open exactly while somebody waits, the write end exactly while somebody waits
      and no notification was sent. */
  ghost predicate Lifecycle(s: Single) {
    && (s.readFd.Some? <==> s.nwaiters > 0)
    && (s.writeFd.Some? <==> s.nwaiters > 0 && !s.notified)
  }

  /** The operating system's table of open descriptors lists exactly the ends the objects hold. */
  ghost predicate Holds(singles: map<SingleId, Single>, open: map<Fd, End>) {
    && (forall f <- open :: open[f].single in singles &&
          (if open[f].reading then singles[open[f].single].readFd else singles[open[f].single].writeFd) == Some(f))
    && (forall id <- singles :: singles[id].readFd.Some? ==>
          singles[id].readFd.value in open && open[singles[id].readFd.value] == End(id, true))
    && (forall id <- singles :: singles[id].writeFd.Some? ==>
          singles[id].writeFd.value in open && open[singles[id].writeFd.value] == End(id, false))
  }

  lemma OpenHolds(singles: map<SingleId, Single>, open: map<Fd, End>, id: SingleId, s: Single, r: Fd, w: Fd)
    requires Holds(singles, open) && id in singles && singles[id].readFd.None? && singles[id].writeFd.None?
    requires r != w && r !in open && w !in open && s.readFd == Some(r) && s.writeFd == Some(w)
    ensures Holds(singles[id := s], open[r := End(id, true)][w := End(id, false)])
  {
  }

  lemma SameHolds(singles: map<SingleId, Single>, open: map<Fd, End>, id: SingleId, s: Single)
    requires Holds(singles, open) && id in singles && s.readFd == singles[id].readFd && s.writeFd == singles[id].writeFd
    ensures Holds(singles[id := s], open)
  {
  }

  /** One waiter less; nobody left, nothing open. */
  function Left(s: Single): (r: Single)
    requires s.nwaiters > 0
  {
    if s.nwaiters == 1 then Single(0, s.notified, None, None) else s.(nwaiters := s.nwaiters - 1)
  }

  /** Descriptors the object still holds after dropping some of its ends. */
  function Dropped(s: Single, s': Single): (r: set<Fd>) {
    (if s.readFd.Some? && s'.readFd.None? then {s.readFd.value} else {})
    + (if s.writeFd.Some? && s'.writeFd.None? then {s.writeFd.value} else {})
  }

  lemma CloseHolds(singles: map<SingleId, Single>, open: map<Fd, End>, id: SingleId, s: Single)
    requires Holds(singles, open) && id in singles
    requires s.readFd == singles[id].readFd || s.readFd.None?
    requires s.writeFd == singles[id].writeFd || s.writeFd.None?
    ensures Holds(singles[id := s], open - Dropped(singles[id], s))
  {
  }

  /** Every descriptor ever handed out is open or was closed, once. */
  ghost predicate Accounted(open: map<Fd, End>, closed: seq<Fd>, nextFd: Fd) {
    && (forall f | 0 <= f < nextFd :: f in open || f in closed)
    && (forall f <- open :: f < nextFd && f !in closed)
    && (forall i | 0 <= i < |closed| :: closed[i] < nextFd)
    && (forall i, j | 0 <= i < j < |closed| :: closed[i] != closed[j])
  }

  class PipeCondition {
    var waiters: set<Thread>
    var single: SingleId
    var singles: map<SingleId, Single>
    var frames: map<Thread, SingleId>
    // the operating system
    var open: map<Fd, End>
    var closed: seq<Fd>
    var nextFd: Fd

    ghost predicate Valid()
      reads this
    {
      && waiters == frames.Keys
      && Fresh(single, singles)
      && Counts(singles, frames) && Cycles(singles)
      && Holds(singles, open) && Accounted(open, closed, nextFd)
    }

    /** What SharedLock needs to know: who waits, and whose pipe was already closed. */
    ghost function Waiting(): (r: map<Thread, bool>)
      reads this
      requires Counts(singles, frames)
    {
      Told(singles, frames)
    }

    constructor ()
      ensures Valid() && Waiting() == map[] && open == map[] && closed == []
    {
      waiters, frames := {}, map[];
      single, singles := 0, map[0 := Single(0, false, None, None)];
      open, closed, nextFd := map[], [], 0;
    }

    /** os.pipe(): two new descriptors. */
    method Pipe(id: SingleId) returns (r: Fd, w: Fd)
      requires Accounted(open, closed, nextFd)
      modifies this`open, this`nextFd
      ensures Accounted(open, closed, nextFd)
      ensures r != w && r !in old(open) && w !in old(open) && open == old(open)[r := End(id, true)][w := End(id, false)]
    {
      r, w := nextFd, nextFd + 1;
      open := open[r := End(id, true)][w := End(id, false)];
      nextFd := nextFd + 2;
    }

    /** os.close() of an open descriptor. */
    method Close(f: Fd)
      requires Accounted(open, closed, nextFd) && f in open
      modifies this`open, this`closed
      ensures Accounted(open, closed, nextFd) && open == old(open) - {f} && closed == old(closed) + [f]
    {
      open := open - {f};
      closed := closed + [f];
    }

    /** wait() up to the point where the lock is given back: the thread polls an open read end. */
    method WaitBegin(t: Thread)
      requires Valid() && t !in waiters
      modifies this
      ensures Valid() && Waiting() == old(Waiting())[t := false]
    {
      hide Accounted, Holds, Counts, Told;
      var cond := single;
      assert !singles[cond].notified;
      waiters := waiters + {t};
      var s := singles[cond].(nwaiters := singles[cond].nwaiters + 1);
      if s.readFd.None? {
        var r, w := Pipe(cond);
        s := s.(readFd := Some(r), writeFd := Some(w));
        OpenHolds(singles, old(open), cond, s, r, w);
      } else {
        SameHolds(singles, open, cond, s);
      }
      EnterCounts(singles, frames, t, cond, s);
      ToldEnter(singles, frames, t, cond, s);
      singles := singles[cond := s];
      frames := frames[t := cond];
    }

    /** The end of SingleNotifyPipeCondition.wait with _Cleanup: the last waiter closes what is open. */
    method LeaveSingle(id: SingleId)
      requires id in singles && singles[id].nwaiters > 0 && Holds(singles, open) && Accounted(open, closed, nextFd)
      modifies this`singles, this`open, this`closed
      ensures Accounted(open, closed, nextFd) && Holds(singles, open)
      ensures singles == old(singles)[id := Left(old(singles[id]))]
    {
      hide Accounted;
      var s := singles[id];
      CloseHolds(singles, open, id, Left(s));
      if s.nwaiters == 1 {
        if s.readFd.Some? {
          Close(s.readFd.value);
        }
        if s.writeFd.Some? {
          Close(s.writeFd.value);
        }
      }
      singles := singles[id := Left(s)];
      assert open == old(open) - Dropped(s, Left(s));
    }

    /** The rest of wait(), once the lock is held again. */
    method WaitEnd(t: Thread)
      requires Valid() && t in waiters
      modifies this
      ensures Valid() && Waiting() == old(Waiting()) - {t}
    {
      hide Accounted, Holds, Counts, Told, WaitersOn;
      SomebodyWaits(singles, frames, t);
      var cond := frames[t];
      ghost var s := Left(singles[cond]);
      LeaveCounts(singles, frames, t, s);
      ToldLeave(singles, frames, t, s);
      LeaveSingle(cond);
      frames := frames - {t};
      waiters := waiters - {t};
    }

    /** notify_all(): closes the write end, and later waiters get a fresh single-use condition. */
    method NotifyAll()
      requires Valid()
      modifies this
      ensures Valid() && Waiting() == map t | t in old(Waiting()) :: true
      ensures waiters == old(waiters)
    {
      hide Accounted, Holds, Counts;
      assert !singles[single].notified;
      CloseWriteEnd();
      SameCounts(old(singles), singles, frames);
      Renew();
    }

    /** SingleNotifyPipeCondition.notify_all. */
    method CloseWriteEnd()
      requires single in singles && Holds(singles, open) && Accounted(open, closed, nextFd)
      modifies this`singles, this`open, this`closed
      ensures Accounted(open, closed, nextFd) && Holds(singles, open)
      ensures singles == old(singles)[single := old(singles[single]).(notified := true, writeFd := None)]
    {
      hide Accounted;
      var s := singles[single];
      CloseHolds(singles, open, single, s.(notified := true, writeFd := None));
      if s.writeFd.Some? {
        Close(s.writeFd.value);
      }
      singles := singles[single := s.(notified := true, writeFd := None)];
      assert open == old(open) - Dropped(s, s.(notified := true, writeFd := None));
    }

    method Renew()
      requires Counts(singles, frames) && Cycles(singles) && Holds(singles, open)
      requires forall id <- singles :: id <= single && singles[id].notified
      modifies this`single, this`singles
      ensures Counts(singles, frames) && Cycles(singles) && Holds(singles, open) && Fresh(single, singles)
      ensures Waiting() == map t | t in frames :: true
    {
      hide Counts, Cycles, Holds, Fresh, Told;
      RenewKeeps(singles, frames, open, single + 1);
      single := single + 1;
      singles := singles[single := Single(0, false, None, None)];
    }

    lemma WaitersAre()
      requires Valid()
      ensures waiters == Waiting().Keys
    {
    }

    /** At any point where the lock is free: a thread that waits polls an open descriptor whose other
        end is closed exactly if it was notified; with nobody waiting no descriptor is left open. */
    lemma NoLeak()
      requires Valid()
      ensures waiters == {} ==> open.Keys == {}
      ensures forall t <- waiters ::
                var s := singles[frames[t]];
                && s.readFd.Some? && s.readFd.value in open
                && (s.writeFd.Some? <==> !s.notified) && (s.writeFd.Some? ==> s.writeFd.value in open)
    {
      forall t | t in waiters ensures singles[frames[t]].nwaiters > 0 {
        SomebodyWaits(singles, frames, t);
      }
      if f :| f in open {
        assert singles[open[f].single].nwaiters > 0;
        var t :| t in WaitersOn(frames, open[f].single);
      }
    }
  }

  /** The current object was never notified, all earlier ones were. */
  ghost predicate Fresh(single: SingleId, singles: map<SingleId, Single>) {
    && single in singles && !singles[single].notified
    && (forall id <- singles :: id <= single && (id != single ==> singles[id].notified))
  }

  ghost predicate Cycles(singles: map<SingleId, Single>) {
    forall id <- singles :: Lifecycle(singles[id])
  }

  lemma RenewKeeps(singles: map<SingleId, Single>, frames: map<Thread, SingleId>, open: map<Fd, End>, id: SingleId)
    requires Counts(singles, frames) && Cycles(singles) && Holds(singles, open)
    requires forall i <- singles :: i < id && singles[i].notified
    ensures var singles' := singles[id := Single(0, false, None, None)];
            && Counts(singles', frames) && Cycles(singles') && Holds(singles', open) && Fresh(id, singles')
            && Told(singles', frames) == map t | t in frames :: true
  {
    RenewCounts(singles, frames, id);
    RenewHolds(singles, open, id);
  }

  lemma RenewCounts(singles: map<SingleId, Single>, frames: map<Thread, SingleId>, id: SingleId)
    requires Counts(singles, frames) && forall i <- singles :: i < id
    ensures Counts(singles[id := Single(0, false, None, None)], frames)
  {
    assert WaitersOn(frames, id) == {};
  }

  lemma RenewHolds(singles: map<SingleId, Single>, open: map<Fd, End>, id: SingleId)
    requires Holds(singles, open) && forall i <- singles :: i < id
    ensures Holds(singles[id := Single(0, false, None, None)], open)
  {
  }

  lemma SameCounts(singles: map<SingleId, Single>, singles': map<SingleId, Single>, frames: map<Thread, SingleId>)
    requires Counts(singles, frames) && singles.Keys == singles'.Keys
    requires forall id <- singles :: singles'[id].nwaiters == singles[id].nwaiters
    ensures Counts(singles', frames)
  {
  }

  /** Whether a thread was told does not change when another one comes or goes. */
  lemma ToldEnter(singles: map<SingleId, Single>, frames: map<Thread, SingleId>, t: Thread, id: SingleId, s: Single)
    requires Counts(singles, frames) && t !in frames && id in singles && !singles[id].notified && !s.notified
    requires Counts(singles[id := s], frames[t := id])
    ensures Told(singles[id := s], frames[t := id]) == Told(singles, frames)[t := false]
  {
  }

  lemma ToldLeave(singles: map<SingleId, Single>, frames: map<Thread, SingleId>, t: Thread, s: Single)
    requires Counts(singles, frames) && t in frames && s.notified == singles[frames[t]].notified
    requires Counts(singles[frames[t] := s], frames - {t})
    ensures Told(singles[frames[t] := s], frames - {t}) == Told(singles, frames) - {t}
  {
  }
}
