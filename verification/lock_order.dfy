/** The order in which cluster locks are requested, and why it rules out deadlocks.

    A lock lives at a level (lib/locking.py:935-959); within a level the order is that of the lock
    names.  A lock set stands for all locks of its level, as in src/Ganeti/Locking/Locks.hs. */
module LockOrder {
  import opened Basics

  const LOCKSET_NAME := "[lockset]"
  const BGL := "BGL"
  const LEVEL_COUNT := 6

  datatype Lock = Lock(level: nat, name: string)

  // ----- names.sort() -----

  function Insert(n: string, names: seq<string>): (r: seq<string>) {
    if names == [] || NameLe(n, names[0]) then [n] + names else [names[0]] + Insert(n, names[1..])
  }

  function Sort(names: seq<string>): (r: seq<string>) {
    if names == [] then [] else Insert(names[0], Sort(names[1..]))
  }

  ghost predicate Ascending(names: seq<string>) {
    forall i, j | 0 <= i < j < |names| :: NameLe(names[i], names[j])
  }

  lemma AscendingCons(a: string, rest: seq<string>, same: seq<string>)
    requires Ascending(rest) && multiset(rest) == multiset(same) && forall n <- same :: NameLe(a, n)
    ensures Ascending([a] + rest)
  {
    hide NameLe;
    forall j | 0 <= j < |rest| ensures NameLe(a, rest[j]) {
      assert rest[j] in multiset(rest);
    }
  }

  lemma {:induction false} InsertSorts(n: string, names: seq<string>)
    requires Ascending(names)
    ensures Ascending(Insert(n, names)) && multiset(Insert(n, names)) == multiset(names) + multiset{n}
  {
    hide NameLe;
    if names != [] {
      assert names == [names[0]] + names[1..];
      if NameLe(n, names[0]) {
        forall j | 0 < j < |names| ensures NameLe(n, names[j]) {
          NameTrans(n, names[0], names[j]);
        }
      } else {
        NameTotal(n, names[0]);
        InsertSorts(n, names[1..]);
        AscendingCons(names[0], Insert(n, names[1..]), names[1..] + [n]);
      }
    }
  }

  lemma {:induction false} SortSorts(names: seq<string>)
    ensures Ascending(Sort(names)) && multiset(Sort(names)) == multiset(names)
  {
    if names != [] {
      SortSorts(names[1..]);
      InsertSorts(names[0], Sort(names[1..]));
      assert names == [names[0]] + names[1..];
    }
  }

  // ----- order of locks -----

  /** Non-decreasing in (level, name). */
  predicate LockLe(a: Lock, b: Lock) {
    a.level < b.level || (a.level == b.level && NameLe(a.name, b.name))
  }

  /** The order of src/Ganeti/Locking/Locks.hs: by level, and the lock set first within its level. */
  predicate Earlier(a: Lock, b: Lock) {
    || a.level < b.level
    || (a.level == b.level && a.name != b.name
        && (a.name == LOCKSET_NAME || (b.name != LOCKSET_NAME && NameLe(a.name, b.name))))
  }

  lemma EarlierTrans(a: Lock, b: Lock, c: Lock)
    requires Earlier(a, b) && Earlier(b, c)
    ensures Earlier(a, c)
  {
    if a.level == b.level == c.level && a.name != LOCKSET_NAME {
      NameTrans(a.name, b.name, c.name);
      if a.name == c.name {
        NameAntisym(a.name, b.name);
      }
    }
  }

  lemma EarlierTotal(a: Lock, b: Lock)
    ensures a == b || Earlier(a, b) || Earlier(b, a)
    ensures !(Earlier(a, b) && Earlier(b, a)) && !Earlier(a, a)
  {
    NameTotal(a.name, b.name);
    if NameLe(a.name, b.name) && NameLe(b.name, a.name) {
      NameAntisym(a.name, b.name);
    }
  }

  predicate IsSet(l: Lock) {
    l.name == LOCKSET_NAME
  }

  /** The lock set that a lock belongs to. */
  function Group(l: Lock): (g: Lock) {
    Lock(l.level, LOCKSET_NAME)
  }

  /** The same lock, or a lock set and one of its members. */
  predicate Overlap(a: Lock, b: Lock) {
    a.level == b.level && (a.name == b.name || IsSet(a) || IsSet(b))
  }
}
