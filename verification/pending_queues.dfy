/** The pending structures of the shared lock as the Python code keeps them: a priority-ordered
    list of (priority, list object) pairs, an index from priorities to the same list objects, and
    the contents of the list objects.  Flat() reads them as the single queue of LockSpec.

    heapq is used through its interface only: the entries are listed in ascending order, so the
    first one is the one that __pending[0] shows. */
module PendingQueues {
  import opened Basics
  import opened LockSpec

  type QueueRef = nat
  type Entries = seq<(int, QueueRef)>
  type Lists = map<QueueRef, seq<CondRef>>

  ghost predicate Heap(pending: Entries, lists: Lists) {
    && (forall i | 0 <= i < |pending| :: pending[i].1 in lists)
    && (forall i, j | 0 <= i < j < |pending| :: pending[i].0 < pending[j].0 && pending[i].1 != pending[j].1)
  }

  /** The index names exactly the entries of the heap, with the same list objects. */
  ghost predicate Index(pending: Entries, byPrio: map<int, QueueRef>) {
    && (forall e <- pending :: e.0 in byPrio && byPrio[e.0] == e.1)
    && (forall p <- byPrio :: (p, byPrio[p]) in pending)
  }

  /** Every condition lies in the list of its own priority. */
  ghost predicate Filed(pending: Entries, lists: Lists, conds: map<CondRef, Cond>)
    requires Heap(pending, lists)
  {
    forall i, c | 0 <= i < |pending| && c in lists[pending[i].1] :: c in conds && conds[c].prio == pending[i].0
  }

  function Flat(pending: Entries, lists: Lists): (q: seq<CondRef>)
    requires forall i | 0 <= i < |pending| :: pending[i].1 in lists
  {
    if pending == [] then [] else lists[pending[0].1] + Flat(pending[1..], lists)
  }

  /** Where heappush files a new priority. */
  function Place(pending: Entries, prio: int): (k: nat)
    ensures k <= |pending|
  {
    if pending == [] || pending[0].0 > prio then 0 else 1 + Place(pending[1..], prio)
  }

  lemma {:induction false} PlaceSplits(pending: Entries, prio: int)
    requires forall i, j | 0 <= i < j < |pending| :: pending[i].0 < pending[j].0
    ensures forall i | 0 <= i < Place(pending, prio) :: pending[i].0 <= prio
    ensures forall i | Place(pending, prio) <= i < |pending| :: pending[i].0 > prio
  {
    if pending != [] && pending[0].0 <= prio {
      PlaceSplits(pending[1..], prio);
      assert forall i | 1 <= i < |pending| :: pending[i] == pending[1..][i - 1];
    }
  }

  lemma {:induction false} FlatConcat(a: Entries, b: Entries, lists: Lists)
    requires forall i | 0 <= i < |a| :: a[i].1 in lists
    requires forall i | 0 <= i < |b| :: b[i].1 in lists
    ensures forall i | 0 <= i < |a + b| :: (a + b)[i].1 in lists
    ensures Flat(a + b, lists) == Flat(a, lists) + Flat(b, lists)
  {
    if a == [] {
      assert a + b == b;
    } else {
      var l, fa, fb := lists[a[0].1], Flat(a[1..], lists), Flat(b, lists);
      FlatConcat(a[1..], b, lists);
      assert (a + b)[0] == a[0] && (a + b)[1..] == a[1..] + b;
      assert l + (fa + fb) == l + fa + fb;
    }
  }

  lemma {:induction false} FlatFrame(a: Entries, lists: Lists, q: QueueRef, l: seq<CondRef>)
    requires forall i | 0 <= i < |a| :: a[i].1 in lists && a[i].1 != q
    ensures Flat(a, lists[q := l]) == Flat(a, lists)
  {
    if a != [] {
      FlatFrame(a[1..], lists, q, l);
    }
  }

  /** Replacing the contents of the k-th list replaces one stretch of the flat queue. */
  lemma FlatUpdate(pending: Entries, lists: Lists, k: nat, l: seq<CondRef>)
    requires Heap(pending, lists) && k < |pending|
    ensures Heap(pending, lists[pending[k].1 := l])
    ensures Flat(pending, lists[pending[k].1 := l]) == Flat(pending[..k], lists) + l + Flat(pending[k + 1..], lists)
  {
    var q := pending[k].1;
    var lists' := lists[q := l];
    assert pending == pending[..k] + pending[k..];
    assert pending[k..][1..] == pending[k + 1..];
    FlatConcat(pending[..k], pending[k..], lists');
    FlatFrame(pending[..k], lists, q, l);
    FlatFrame(pending[k + 1..], lists, q, l);
  }

  /** The flat queue around the k-th list. */
  lemma FlatAt(pending: Entries, lists: Lists, k: nat)
    requires Heap(pending, lists) && k < |pending|
    ensures Flat(pending, lists) == Flat(pending[..k], lists) + lists[pending[k].1] + Flat(pending[k + 1..], lists)
  {
    FlatUpdate(pending, lists, k, lists[pending[k].1]);
    assert lists[pending[k].1 := lists[pending[k].1]] == lists;
  }

  lemma {:induction false} FlatMember(pending: Entries, lists: Lists, c: CondRef) returns (k: nat)
    requires forall i | 0 <= i < |pending| :: pending[i].1 in lists
    requires c in Flat(pending, lists)
    ensures k < |pending| && c in lists[pending[k].1]
  {
    if c in lists[pending[0].1] {
      k := 0;
    } else {
      var k' := FlatMember(pending[1..], lists, c);
      k := k' + 1;
    }
  }

  /** A condition of priority p lies in the list that the index names for p, and only there. */
  lemma FiledAt(pending: Entries, byPrio: map<int, QueueRef>, lists: Lists, conds: map<CondRef, Cond>,
                c: CondRef) returns (k: nat)
    requires Heap(pending, lists) && Index(pending, byPrio) && Filed(pending, lists, conds)
    requires c in Flat(pending, lists)
    ensures c in conds && k < |pending| && pending[k].0 == conds[c].prio
    ensures conds[c].prio in byPrio && pending[k].1 == byPrio[conds[c].prio] && c in lists[pending[k].1]
  {
    k := FlatMember(pending, lists, c);
    assert pending[k] in pending;
  }

  lemma PushHeap(pending: Entries, lists: Lists, k: nat, prio: int, q: QueueRef)
    requires Heap(pending, lists) && q !in lists && k <= |pending|
    requires forall i | 0 <= i < k :: pending[i].0 < prio
    requires forall i | k <= i < |pending| :: pending[i].0 > prio
    ensures Heap(pending[..k] + [(prio, q)] + pending[k..], lists[q := []])
  {
  }

  lemma PushIndex(pending: Entries, byPrio: map<int, QueueRef>, k: nat, prio: int, q: QueueRef)
    requires Index(pending, byPrio) && prio !in byPrio && k <= |pending|
    ensures Index(pending[..k] + [(prio, q)] + pending[k..], byPrio[prio := q])
  {
  }

  lemma PushFiled(pending: Entries, lists: Lists, conds: map<CondRef, Cond>, k: nat, prio: int, q: QueueRef)
    requires Heap(pending, lists) && Filed(pending, lists, conds) && k <= |pending| && q !in lists
    requires Heap(pending[..k] + [(prio, q)] + pending[k..], lists[q := []])
    ensures Filed(pending[..k] + [(prio, q)] + pending[k..], lists[q := []], conds)
  {
  }

  /** An empty list is invisible in the flat queue. */
  lemma PushFlat(pending: Entries, lists: Lists, k: nat, prio: int, q: QueueRef)
    requires Heap(pending, lists) && k <= |pending| && q !in lists
    requires Heap(pending[..k] + [(prio, q)] + pending[k..], lists[q := []])
    ensures Flat(pending[..k] + [(prio, q)] + pending[k..], lists[q := []]) == Flat(pending, lists)
  {
    assert pending == pending[..k] + pending[k..];
    FlatConcat(pending[..k], pending[k..], lists);
    var pending' := pending[..k] + [(prio, q)] + pending[k..];
    FlatAt(pending', lists[q := []], k);
    assert pending'[..k] == pending[..k] && pending'[k + 1..] == pending[k..];
    FlatFrame(pending[..k], lists, q, []);
    FlatFrame(pending[k..], lists, q, []);
  }

  /** heappush of an empty list under a new priority. */
  lemma PushEmpty(pending: Entries, byPrio: map<int, QueueRef>, lists: Lists, conds: map<CondRef, Cond>,
                  prio: int, q: QueueRef)
    requires Heap(pending, lists) && Index(pending, byPrio) && Filed(pending, lists, conds)
    requires prio !in byPrio && q !in lists
    ensures var k := Place(pending, prio);
            var pending' := pending[..k] + [(prio, q)] + pending[k..];
            var lists' := lists[q := []];
            && Heap(pending', lists') && Index(pending', byPrio[prio := q]) && Filed(pending', lists', conds)
            && Flat(pending', lists') == Flat(pending, lists)
  {
    var k := Place(pending, prio);
    PlaceSplits(pending, prio);
    forall i | 0 <= i < |pending| ensures pending[i].0 != prio {
      assert pending[i] in pending;
    }
    PushHeap(pending, lists, k, prio, q);
    PushIndex(pending, byPrio, k, prio, q);
    PushFiled(pending, lists, conds, k, prio, q);
    PushFlat(pending, lists, k, prio, q);
  }

  // ----- what appending and removing do to the flat queue -----

  lemma {:induction false} SlotAt(x: seq<CondRef>, y: seq<CondRef>, conds: map<CondRef, Cond>, prio: int)
    requires forall c <- x + y :: c in conds
    requires forall c <- x :: conds[c].prio <= prio
    requires forall c <- y :: conds[c].prio > prio
    ensures Slot(x + y, conds, prio) == |x|
  {
    if x == [] {
      assert x + y == y;
    } else {
      assert (x + y)[1..] == x[1..] + y;
      SlotAt(x[1..], y, conds, prio);
    }
  }

  lemma {:induction false} WithoutConcat(a: seq<CondRef>, b: seq<CondRef>, c: CondRef)
    ensures Without(a + b, c) == if c in a then Without(a, c) + b else a + Without(b, c)
  {
    if a == [] {
      assert a + b == b;
    } else {
      assert (a + b)[1..] == a[1..] + b;
      if a[0] != c {
        WithoutConcat(a[1..], b, c);
        assert [a[0]] + (a[1..] + Without(b, c)) == a + Without(b, c);
      }
    }
  }

  lemma WithoutMiddle(a: seq<CondRef>, l: seq<CondRef>, b: seq<CondRef>, c: CondRef)
    requires c in l && c !in a
    ensures Without(a + l + b, c) == a + Without(l, c) + b
  {
    assert a + l + b == a + (l + b);
    WithoutConcat(a, l + b, c);
    WithoutConcat(l, b, c);
  }

  lemma {:induction false} WithoutGone(q: seq<CondRef>, c: CondRef, d: CondRef)
    requires forall i, j | 0 <= i < j < |q| :: q[i] != q[j]
    ensures d in Without(q, c) <==> d in q && d != c
  {
    if q != [] && q[0] != c {
      WithoutGone(q[1..], c, d);
    }
  }

  /** The stretches of the flat queue before and after the k-th list. */
  lemma Around(pending: Entries, lists: Lists, conds: map<CondRef, Cond>, k: nat)
    requires Heap(pending, lists) && Filed(pending, lists, conds) && k < |pending|
    ensures forall c <- Flat(pending[..k], lists) :: c in conds && conds[c].prio < pending[k].0
    ensures forall c <- lists[pending[k].1] :: c in conds && conds[c].prio == pending[k].0
    ensures forall c <- Flat(pending[k + 1..], lists) :: c in conds && conds[c].prio > pending[k].0
  {
    forall c | c in Flat(pending[..k], lists) ensures c in conds && conds[c].prio < pending[k].0 {
      var j := FlatMember(pending[..k], lists, c);
      assert pending[..k][j] == pending[j];
    }
    forall c | c in Flat(pending[k + 1..], lists) ensures c in conds && conds[c].prio > pending[k].0 {
      var j := FlatMember(pending[k + 1..], lists, c);
      assert pending[k + 1..][j] == pending[k + 1 + j];
    }
  }

  lemma AppendFlat(pending: Entries, lists: Lists, conds: map<CondRef, Cond>, k: nat, c: CondRef)
    requires Heap(pending, lists) && Filed(pending, lists, conds) && k < |pending|
    requires forall d <- Flat(pending, lists) :: d in conds
    ensures var q, f := pending[k].1, Flat(pending, lists);
            var i := Slot(f, conds, pending[k].0);
            && Heap(pending, lists[q := lists[q] + [c]])
            && Flat(pending, lists[q := lists[q] + [c]]) == f[..i] + [c] + f[i..]
  {
    var q, f := pending[k].1, Flat(pending, lists);
    var a, b := Flat(pending[..k], lists), Flat(pending[k + 1..], lists);
    FlatAt(pending, lists, k);
    FlatUpdate(pending, lists, k, lists[q] + [c]);
    Around(pending, lists, conds, k);
    SlotAt(a + lists[q], b, conds, pending[k].0);
    assert f == (a + lists[q]) + b;
    assert f[..|a + lists[q]|] == a + lists[q] && f[|a + lists[q]|..] == b;
  }

  lemma AppendFiled(pending: Entries, lists: Lists, conds: map<CondRef, Cond>, k: nat, c: CondRef, cond: Cond)
    requires Heap(pending, lists) && Filed(pending, lists, conds) && k < |pending|
    requires c !in conds && cond.prio == pending[k].0
    requires Heap(pending, lists[pending[k].1 := lists[pending[k].1] + [c]])
    ensures Filed(pending, lists[pending[k].1 := lists[pending[k].1] + [c]], conds[c := cond])
  {
  }

  lemma RemoveFlat(pending: Entries, lists: Lists, conds: map<CondRef, Cond>, k: nat, c: CondRef)
    requires Heap(pending, lists) && Filed(pending, lists, conds) && k < |pending|
    requires c in lists[pending[k].1]
    ensures var q := pending[k].1;
            && Heap(pending, lists[q := Without(lists[q], c)])
            && Flat(pending, lists[q := Without(lists[q], c)]) == Without(Flat(pending, lists), c)
  {
    var q := pending[k].1;
    var a, b := Flat(pending[..k], lists), Flat(pending[k + 1..], lists);
    FlatAt(pending, lists, k);
    FlatUpdate(pending, lists, k, Without(lists[q], c));
    Around(pending, lists, conds, k);
    assert c !in a;
    WithoutMiddle(a, lists[q], b, c);
  }

  lemma RemoveFiled(pending: Entries, lists: Lists, conds: map<CondRef, Cond>, k: nat, c: CondRef)
    requires Heap(pending, lists) && Filed(pending, lists, conds) && k < |pending|
    requires c in lists[pending[k].1]
    requires forall i, j | 0 <= i < j < |lists[pending[k].1]| :: lists[pending[k].1][i] != lists[pending[k].1][j]
    requires Heap(pending, lists[pending[k].1 := Without(lists[pending[k].1], c)])
    ensures Filed(pending, lists[pending[k].1 := Without(lists[pending[k].1], c)], conds - {c})
  {
    var q := pending[k].1;
    forall i, d | 0 <= i < |pending| && d in lists[q := Without(lists[q], c)][pending[i].1]
      ensures d in conds - {c} && conds[d].prio == pending[i].0
    {
      if i == k {
        WithoutGone(lists[q], c, d);
      } else {
        assert pending[i].0 != pending[k].0 && pending[i].1 != q;
        assert conds[c].prio == pending[k].0;
      }
    }
  }

  /** Moving a condition of the first list to its front moves it to the front of the flat queue. */
  lemma PromoteFlat(pending: Entries, lists: Lists, c: CondRef)
    requires Heap(pending, lists) && pending != [] && c in lists[pending[0].1]
    ensures var q := pending[0].1;
            && Heap(pending, lists[q := [c] + Without(lists[q], c)])
            && Flat(pending, lists[q := [c] + Without(lists[q], c)]) == [c] + Without(Flat(pending, lists), c)
  {
    var q, rest := pending[0].1, Flat(pending[1..], lists);
    var l := Without(lists[q], c);
    FlatFirst(pending, lists, [c] + l);
    hide Flat, Without;
    WithoutConcat(lists[q], rest, c);
    assert [c] + l + rest == [c] + (l + rest);
  }

  /** Replacing the first list. */
  lemma FlatFirst(pending: Entries, lists: Lists, l: seq<CondRef>)
    requires Heap(pending, lists) && pending != []
    ensures Heap(pending, lists[pending[0].1 := l])
    ensures Flat(pending, lists) == lists[pending[0].1] + Flat(pending[1..], lists)
    ensures Flat(pending, lists[pending[0].1 := l]) == l + Flat(pending[1..], lists)
  {
    FlatFrame(pending[1..], lists, pending[0].1, l);
  }

  lemma PromoteFiled(pending: Entries, lists: Lists, conds: map<CondRef, Cond>, c: CondRef)
    requires Heap(pending, lists) && Filed(pending, lists, conds) && pending != [] && c in lists[pending[0].1]
    requires forall i, j | 0 <= i < j < |lists[pending[0].1]| :: lists[pending[0].1][i] != lists[pending[0].1][j]
    requires Heap(pending, lists[pending[0].1 := [c] + Without(lists[pending[0].1], c)])
    ensures Filed(pending, lists[pending[0].1 := [c] + Without(lists[pending[0].1], c)], conds)
  {
    hide Without;
    var q := pending[0].1;
    forall i, d | 0 <= i < |pending| && d in lists[q := [c] + Without(lists[q], c)][pending[i].1]
      ensures d in conds && conds[d].prio == pending[i].0
    {
      if i == 0 {
        WithoutGone(lists[q], c, d);
        assert d in lists[pending[0].1];
      } else {
        assert pending[0].1 != pending[i].1;
        assert d in lists[pending[i].1];
      }
    }
  }

  /** The lists inherit from the flat queue that no condition stands twice. */
  lemma ListDistinct(pending: Entries, lists: Lists, k: nat)
    requires Heap(pending, lists) && k < |pending|
    requires forall i, j | 0 <= i < j < |Flat(pending, lists)| :: Flat(pending, lists)[i] != Flat(pending, lists)[j]
    ensures forall i, j | 0 <= i < j < |lists[pending[k].1]| :: lists[pending[k].1][i] != lists[pending[k].1][j]
  {
    FlatAt(pending, lists, k);
    var a, l, f := Flat(pending[..k], lists), lists[pending[k].1], Flat(pending, lists);
    forall i, j | 0 <= i < j < |l| ensures l[i] != l[j] {
      assert l[i] == f[|a| + i] && l[j] == f[|a| + j];
    }
  }

  // ----- heappop of an empty list -----

  lemma PopIndex(pending: Entries, byPrio: map<int, QueueRef>, lists: Lists)
    requires Heap(pending, lists) && Index(pending, byPrio) && pending != []
    ensures Heap(pending[1..], lists) && Index(pending[1..], byPrio - {pending[0].0})
  {
  }

  lemma PopFlat(pending: Entries, lists: Lists, conds: map<CondRef, Cond>)
    requires Heap(pending, lists) && Filed(pending, lists, conds) && pending != [] && lists[pending[0].1] == []
    ensures Heap(pending[1..], lists) && Filed(pending[1..], lists, conds)
    ensures Flat(pending[1..], lists) == Flat(pending, lists)
    ensures forall c <- Flat(pending, lists) :: c in conds && conds[c].prio != pending[0].0
  {
    Around(pending, lists, conds, 0);
    assert pending[0 + 1..] == pending[1..];
  }
}
