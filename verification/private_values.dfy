/** Finding the private parts of a decoded JSON value and wrapping them in place (lib/serializer.py). */
module PrivateValues {

  /** Scalar is a number or a truth value, Private a PrivateDict: a dictionary whose values are all wrapped. */
  datatype Json =
    | Null
    | Text(text: string)
    | Scalar(number: string)
    | Array(items: seq<Json>)
    | Object(fields: seq<Field>)
    | Private(entries: seq<Field>)

  datatype Field = Field(key: string, value: Json)

  const PRIVATE_PARAMETERS_BLACKLIST: set<string> :=
    {"osparams_private", "osparams_secret", "osparams_private_cluster"}

  predicate Listed(key: string) {
    key in PRIVATE_PARAMETERS_BLACKLIST
  }

  predicate IsCluster(key: string) {
    |key| >= 8 && key[|key| - 8..] == "_cluster"
  }

  // ----- the recursive definition -----

  /** Iterating over it gives nothing. */
  predicate Empty(v: Json) {
    match v
    case Text(text) => text == ""
    case Array(items) => items == []
    case Object(fields) => fields == []
    case Private(entries) => entries == []
    case Null => false
    case Scalar(_) => false
  }

  /** PrivateDict(value) */
  function Hide(v: Json): (r: Json) {
    if v.Null? || Empty(v) then Private([])
    else if v.Object? then Private(v.fields)
    else v
  }

  predicate Hideable(v: Json) {
    v.Null? || v.Object? || v.Private? || Empty(v)
  }

  function HideEach(fields: seq<Field>): (r: seq<Field>)
    ensures |r| == |fields|
    ensures forall i | 0 <= i < |r| :: r[i] == Field(fields[i].key, Hide(fields[i].value))
  {
    seq(|fields|, i requires 0 <= i < |fields| => Field(fields[i].key, Hide(fields[i].value)))
  }

  /** What becomes of the value of a listed field. */
  function Guard(key: string, v: Json): (r: Json) {
    if !IsCluster(key) then Hide(v)
    else if v.Object? then Object(HideEach(v.fields))
    else v
  }

  /** The values a listed field may have. */
  predicate Guardable(key: string, v: Json) {
    if !IsCluster(key) then Hideable(v)
    else v.Null? || Empty(v) || (v.Object? && forall i | 0 <= i < |v.fields| :: Hideable(v.fields[i].value))
  }

  function Wrap(j: Json): (r: Json) {
    match j
    case Array(items) => Array(seq(|items|, i requires 0 <= i < |items| => Wrap(items[i])))
    case Object(fields) =>
      Object(seq(|fields|, i requires 0 <= i < |fields| =>
        Field(fields[i].key,
              if Listed(fields[i].key) then Guard(fields[i].key, fields[i].value) else Wrap(fields[i].value))))
    case Null => j
    case Scalar(_) => j
    case Text(_) => j
    case Private(_) => j
  }

  /** Every listed field holds a dictionary, null or something empty, and a listed one for the cluster a
      dictionary of such, null or something empty. */
  predicate Protectable(j: Json) {
    match j
    case Array(items) => forall i | 0 <= i < |items| :: Protectable(items[i])
    case Object(fields) =>
      forall i | 0 <= i < |fields| ::
        if Listed(fields[i].key) then Guardable(fields[i].key, fields[i].value) else Protectable(fields[i].value)
    case Private(entries) => forall i | 0 <= i < |entries| :: !Listed(entries[i].key)
    case Null => true
    case Scalar(_) => true
    case Text(_) => true
  }

  // ----- what the recursive definition achieves -----

  /** Nothing under a listed field is left bare. */
  predicate Secure(j: Json) {
    match j
    case Array(items) => forall i | 0 <= i < |items| :: Secure(items[i])
    case Object(fields) =>
      forall i | 0 <= i < |fields| ::
        if Listed(fields[i].key) then SecureListed(fields[i].key, fields[i].value) else Secure(fields[i].value)
    case Private(entries) => forall i | 0 <= i < |entries| :: !Listed(entries[i].key)
    case Null => true
    case Scalar(_) => true
    case Text(_) => true
  }

  predicate SecureListed(key: string, v: Json) {
    if !IsCluster(key) then v.Private?
    else v.Null? || Empty(v) || (v.Object? && forall i | 0 <= i < |v.fields| :: v.fields[i].value.Private?)
  }

  lemma GuardSecures(key: string, v: Json)
    ensures Guardable(key, v) <==> SecureListed(key, Guard(key, v))
  {
    if v.Object? {
      var hidden := HideEach(v.fields);
      forall i | 0 <= i < |hidden| ensures hidden[i].value.Private? <==> Hideable(v.fields[i].value) {
      }
    }
  }

  /** Wrapping leaves nothing bare exactly when the value can be protected. */
  lemma {:induction false} WrapSecures(j: Json)
    ensures Protectable(j) <==> Secure(Wrap(j))
  {
    match j
    case Array(items) =>
      var wrapped := Wrap(j).items;
      forall i | 0 <= i < |items| ensures Protectable(items[i]) <==> Secure(wrapped[i]) {
        WrapSecures(items[i]);
      }
    case Object(fields) =>
      hide Guard, Guardable, SecureListed, IsCluster, Listed;
      var wrapped := Wrap(j).fields;
      forall i | 0 <= i < |fields|
        ensures wrapped[i].key == fields[i].key
        ensures !Listed(fields[i].key) ==> (Protectable(fields[i].value) <==> Secure(wrapped[i].value))
        ensures Listed(fields[i].key) ==>
                  (Guardable(fields[i].key, fields[i].value) <==>
                     SecureListed(fields[i].key, wrapped[i].value))
      {
        if Listed(fields[i].key) {
          GuardSecures(fields[i].key, fields[i].value);
        } else {
          WrapSecures(fields[i].value);
        }
      }
    case Null =>
    case Scalar(_) =>
    case Text(_) =>
    case Private(_) =>
  }

  lemma {:induction false} SecureIsDone(j: Json)
    requires Secure(j)
    ensures Protectable(j) && Wrap(j) == j
  {
    match j
    case Array(items) =>
      forall i | 0 <= i < |items| ensures Protectable(items[i]) && Wrap(items[i]) == items[i] {
        SecureIsDone(items[i]);
      }
      assert Wrap(j).items == items;
    case Object(fields) =>
      forall i | 0 <= i < |fields|
        ensures Listed(fields[i].key) ==>
                  Guardable(fields[i].key, fields[i].value) && Guard(fields[i].key, fields[i].value) == fields[i].value
        ensures !Listed(fields[i].key) ==>
                  Protectable(fields[i].value) && Wrap(fields[i].value) == fields[i].value
      {
        if Listed(fields[i].key) {
          SecureField(fields[i].key, fields[i].value);
        } else {
          SecureIsDone(fields[i].value);
        }
      }
      assert Wrap(j).fields == fields;
    case Null =>
    case Scalar(_) =>
    case Text(_) =>
    case Private(_) =>
  }

  lemma SecureField(key: string, v: Json)
    requires SecureListed(key, v)
    ensures Guardable(key, v) && Guard(key, v) == v
  {
  }

  /** A second pass, as in loading a signed message, changes nothing. */
  lemma WrapTwice(j: Json)
    requires Protectable(j)
    ensures Protectable(Wrap(j)) && Wrap(Wrap(j)) == Wrap(j)
  {
    WrapSecures(j);
    SecureIsDone(Wrap(j));
  }

  /** The value with the wrapping under listed fields taken off; null and anything empty count as an empty dictionary there. */
  function Bare(v: Json): (r: Json) {
    if v.Null? || Empty(v) then Object([]) else if v.Private? then Object(v.entries) else v
  }

  function BareEach(fields: seq<Field>): (r: seq<Field>)
    ensures |r| == |fields|
    ensures forall i | 0 <= i < |r| :: r[i] == Field(fields[i].key, Bare(fields[i].value))
  {
    seq(|fields|, i requires 0 <= i < |fields| => Field(fields[i].key, Bare(fields[i].value)))
  }

  function BareField(key: string, v: Json): (r: Json) {
    if !IsCluster(key) then Bare(v)
    else if v.Object? then Object(BareEach(v.fields))
    else v
  }

  function Forget(j: Json): (r: Json) {
    match j
    case Array(items) => Array(seq(|items|, i requires 0 <= i < |items| => Forget(items[i])))
    case Object(fields) =>
      Object(seq(|fields|, i requires 0 <= i < |fields| =>
        Field(fields[i].key,
              if Listed(fields[i].key) then BareField(fields[i].key, fields[i].value)
              else Forget(fields[i].value))))
    case Null => j
    case Scalar(_) => j
    case Text(_) => j
    case Private(_) => j
  }

  /** Wrapping changes nothing but the wrapping. */
  lemma {:induction false} WrapKeepsContents(j: Json)
    ensures Forget(Wrap(j)) == Forget(j)
  {
    match j
    case Array(items) =>
      forall i | 0 <= i < |items| ensures Forget(Wrap(items[i])) == Forget(items[i]) {
        WrapKeepsContents(items[i]);
      }
      assert Forget(Wrap(j)).items == Forget(j).items;
    case Object(fields) =>
      forall i | 0 <= i < |fields|
        ensures Listed(fields[i].key) ==>
                  BareField(fields[i].key, Guard(fields[i].key, fields[i].value)) ==
                  BareField(fields[i].key, fields[i].value)
        ensures !Listed(fields[i].key) ==> Forget(Wrap(fields[i].value)) == Forget(fields[i].value)
      {
        GuardKeepsContents(fields[i].key, fields[i].value);
        WrapKeepsContents(fields[i].value);
      }
      assert Forget(Wrap(j)).fields == Forget(j).fields;
    case Null =>
    case Scalar(_) =>
    case Text(_) =>
    case Private(_) =>
  }

  lemma GuardKeepsContents(key: string, v: Json)
    ensures BareField(key, Guard(key, v)) == BareField(key, v)
  {
  }

  // ----- places in a value -----

  /** Which child to go to, level by level; stands for a reference into the structure. */
  type Path = seq<nat>

  function Kids(j: Json): (n: nat) {
    if j.Array? then |j.items| else if j.Object? then |j.fields| else 0
  }

  function Kid(j: Json, i: nat): (r: Json)
    requires i < Kids(j)
    ensures r < j
  {
    if j.Array? then j.items[i] else j.fields[i].value
  }

  function SetKid(j: Json, i: nat, v: Json): (r: Json)
    requires i < Kids(j)
    ensures Kids(r) == Kids(j) && SameShape(r, j)
    ensures forall k: nat | k < Kids(j) :: Kid(r, k) == (if k == i then v else Kid(j, k))
  {
    if j.Array? then Array(j.items[i := v])
    else Object(j.fields[i := Field(j.fields[i].key, v)])
  }

  predicate Has(j: Json, p: Path) {
    p == [] || (p[0] < Kids(j) && Has(Kid(j, p[0]), p[1..]))
  }

  function At(j: Json, p: Path): (r: Json)
    requires Has(j, p)
  {
    if p == [] then j else At(Kid(j, p[0]), p[1..])
  }

  function Put(j: Json, p: Path, v: Json): (r: Json)
    requires Has(j, p)
  {
    if p == [] then v else SetKid(j, p[0], Put(Kid(j, p[0]), p[1..], v))
  }

  /** Neither place lies inside the other. */
  predicate Apart(p: Path, q: Path) {
    exists i | 0 <= i < |p| && i < |q| :: p[i] != q[i]
  }

  lemma {:induction false} PutAt(j: Json, p: Path, v: Json)
    requires Has(j, p)
    ensures Has(Put(j, p, v), p) && At(Put(j, p, v), p) == v
  {
    if p != [] {
      PutAt(Kid(j, p[0]), p[1..], v);
    }
  }

  lemma {:induction false} PutSame(j: Json, p: Path)
    requires Has(j, p)
    ensures Put(j, p, At(j, p)) == j
  {
    if p != [] {
      PutSame(Kid(j, p[0]), p[1..]);
      SetKidSame(j, p[0]);
    }
  }

  lemma SetKidSame(j: Json, i: nat)
    requires i < Kids(j)
    ensures SetKid(j, i, Kid(j, i)) == j
  {
  }

  lemma {:induction false} PutTwice(j: Json, p: Path, v: Json, w: Json)
    requires Has(j, p)
    ensures Has(Put(j, p, v), p) && Put(Put(j, p, v), p, w) == Put(j, p, w)
  {
    if p != [] {
      PutTwice(Kid(j, p[0]), p[1..], v, w);
    }
  }

  lemma {:induction false} PutApart(j: Json, p: Path, q: Path, v: Json)
    requires Has(j, p) && Has(j, q) && Apart(p, q)
    ensures Has(Put(j, p, v), q) && At(Put(j, p, v), q) == At(j, q)
  {
    if p[0] == q[0] {
      var i :| 0 <= i < |p| && i < |q| && p[i] != q[i];
      assert p[1..][i - 1] != q[1..][i - 1];
      PutApart(Kid(j, p[0]), p[1..], q[1..], v);
    }
  }

  /** One step further down. */
  lemma {:induction false} PutBelow(j: Json, p: Path, i: nat, v: Json)
    requires Has(j, p) && i < Kids(At(j, p))
    ensures Has(j, p + [i]) && At(j, p + [i]) == Kid(At(j, p), i)
    ensures Put(j, p + [i], v) == Put(j, p, SetKid(At(j, p), i, v))
  {
    if p == [] {
      assert p + [i] == [i];
    } else {
      PutBelow(Kid(j, p[0]), p[1..], i, v);
      assert (p + [i])[1..] == p[1..] + [i];
    }
  }

  // ----- what is left to do -----

  predicate AllThere(j: Json, todo: seq<Path>) {
    forall k | 0 <= k < |todo| :: Has(j, todo[k])
  }

  predicate AllApart(todo: seq<Path>) {
    forall k, l | 0 <= k < l < |todo| :: Apart(todo[k], todo[l])
  }

  predicate AllProtectable(j: Json, todo: seq<Path>)
    requires AllThere(j, todo)
  {
    forall k | 0 <= k < |todo| :: Protectable(At(j, todo[k]))
  }

  /** The value after everything on the list has been wrapped, the last place first. */
  function Finish(j: Json, todo: seq<Path>): (r: Json)
    decreases |todo|
  {
    if todo == [] then j
    else
      var init, p := todo[..|todo| - 1], todo[|todo| - 1];
      Finish(if Has(j, p) then Put(j, p, Wrap(At(j, p))) else j, init)
  }

  /** The same for some children of one value. */
  function FinishKids(j: Json, steps: seq<nat>): (r: Json)
    requires forall k | 0 <= k < |steps| :: steps[k] < Kids(j)
    ensures Kids(r) == Kids(j)
    decreases |steps|
  {
    if steps == [] then j
    else
      var i := steps[|steps| - 1];
      FinishKids(SetKid(j, i, Wrap(Kid(j, i))), steps[..|steps| - 1])
  }

  function Below(p: Path, steps: seq<nat>): (r: seq<Path>)
    ensures |r| == |steps| && forall k | 0 <= k < |r| :: r[k] == p + [steps[k]]
  {
    seq(|steps|, k requires 0 <= k < |steps| => p + [steps[k]])
  }

  /** Wrapping listed children of a place is wrapping inside it. */
  lemma {:induction false} FinishBelow(j: Json, todo: seq<Path>, p: Path, steps: seq<nat>)
    requires Has(j, p) && forall k | 0 <= k < |steps| :: steps[k] < Kids(At(j, p))
    ensures Finish(j, todo + Below(p, steps)) == Finish(Put(j, p, FinishKids(At(j, p), steps)), todo)
    decreases |steps|
  {
    var all := todo + Below(p, steps);
    if steps == [] {
      assert all == todo;
      PutSame(j, p);
    } else {
      var init, i := steps[..|steps| - 1], steps[|steps| - 1];
      assert all[..|all| - 1] == todo + Below(p, init) && all[|all| - 1] == p + [i];
      var x := At(j, p);
      var y := SetKid(x, i, Wrap(Kid(x, i)));
      PutBelow(j, p, i, Wrap(Kid(x, i)));
      PutAt(j, p, y);
      FinishBelow(Put(j, p, y), todo, p, init);
      PutTwice(j, p, y, FinishKids(y, init));
    }
  }

  predicate Increasing(steps: seq<nat>) {
    forall k, l | 0 <= k < l < |steps| :: steps[k] < steps[l]
  }

  lemma {:induction false} FinishShape(j: Json, steps: seq<nat>)
    requires forall k | 0 <= k < |steps| :: steps[k] < Kids(j)
    ensures SameShape(FinishKids(j, steps), j)
    decreases |steps|
  {
    hide Wrap, SetKid, Kid, SameShape;
    if steps == [] {
      ShapeSelf(j);
    } else {
      var i := steps[|steps| - 1];
      var j' := SetKid(j, i, Wrap(Kid(j, i)));
      FinishShape(j', steps[..|steps| - 1]);
      ShapeTrans(FinishKids(j, steps), j', j);
    }
  }

  lemma {:induction false} FinishKid(j: Json, steps: seq<nat>, i: nat)
    requires Increasing(steps) && (forall k | 0 <= k < |steps| :: steps[k] < Kids(j)) && i < Kids(j)
    ensures Kid(FinishKids(j, steps), i) == if i in steps then Wrap(Kid(j, i)) else Kid(j, i)
    decreases |steps|
  {
    hide Wrap, SetKid, Kid, SameShape;
    if steps != [] {
      var init, l := steps[..|steps| - 1], steps[|steps| - 1];
      FinishKid(SetKid(j, l, Wrap(Kid(j, l))), init, i);
      assert i in steps <==> i in init || i == l by {
        assert steps == init + [l];
      }
      assert l !in init;
    }
  }

  /** Equal but for the values of the children. */
  predicate SameShape(a: Json, b: Json) {
    if a.Array? then b.Array? && |a.items| == |b.items|
    else if a.Object? then
      b.Object? && |a.fields| == |b.fields| && forall i | 0 <= i < |a.fields| :: a.fields[i].key == b.fields[i].key
    else a == b
  }

  lemma ShapeSelf(a: Json)
    ensures SameShape(a, a)
  {
  }

  lemma ShapeBack(a: Json, b: Json)
    requires SameShape(a, b)
    ensures SameShape(b, a)
  {
  }

  lemma ShapeTrans(a: Json, b: Json, c: Json)
    requires SameShape(a, b) && SameShape(b, c)
    ensures SameShape(a, c)
  {
  }

  lemma SameKids(a: Json, b: Json)
    requires SameShape(a, b) && Kids(a) == Kids(b) && forall i: nat | i < Kids(a) :: Kid(a, i) == Kid(b, i)
    ensures a == b
  {
    if a.Array? {
      assert forall i | 0 <= i < |a.items| :: a.items[i] == Kid(a, i) == Kid(b, i) == b.items[i];
    } else if a.Object? {
      assert forall i | 0 <= i < |a.fields| :: a.fields[i].value == Kid(a, i) == Kid(b, i) == b.fields[i].value;
    }
  }

  // ----- one round of the loop -----

  /** The children that go on the list: all of an array, those of an object that are not listed. */
  function Open(j: Json, n: nat): (r: seq<nat>)
    requires n <= Kids(j)
  {
    if n == 0 then [] else Open(j, n - 1) + (if IsOpen(j, n - 1) then [n - 1] else [])
  }

  predicate IsOpen(j: Json, i: nat)
    requires i < Kids(j)
  {
    j.Array? || !Listed(j.fields[i].key)
  }

  lemma {:induction false} OpenAre(j: Json, n: nat)
    requires n <= Kids(j)
    ensures Increasing(Open(j, n)) && forall k | 0 <= k < |Open(j, n)| :: Open(j, n)[k] < n
    ensures forall i: nat | i < n :: i in Open(j, n) <==> IsOpen(j, i)
  {
    if n > 0 {
      OpenAre(j, n - 1);
    }
  }

  /** The value with the first n of its listed fields guarded. */
  function Guarded(j: Json, n: nat): (r: Json)
    requires n <= Kids(j)
    ensures Kids(r) == Kids(j)
  {
    if n == 0 then j
    else if IsOpen(j, n - 1) then Guarded(j, n - 1)
    else SetKid(Guarded(j, n - 1), n - 1, Guard(j.fields[n - 1].key, Kid(j, n - 1)))
  }

  lemma {:induction false} GuardedShape(j: Json, n: nat)
    requires n <= Kids(j)
    ensures SameShape(Guarded(j, n), j)
  {
    hide Guard, SetKid, Kid, SameShape, IsOpen;
    if n == 0 {
      ShapeSelf(j);
    } else {
      GuardedShape(j, n - 1);
      if !IsOpen(j, n - 1) {
        ObjectsOnly(j, n - 1);
        ShapeTrans(Guarded(j, n), Guarded(j, n - 1), j);
      }
    }
  }

  lemma ObjectsOnly(j: Json, i: nat)
    requires i < Kids(j) && !IsOpen(j, i)
    ensures j.Object? && |j.fields| == Kids(j)
  {
  }

  lemma {:induction false} GuardedKid(j: Json, n: nat, i: nat)
    requires n <= Kids(j) && i < Kids(j)
    ensures !IsOpen(j, i) ==> j.Object? && |j.fields| == Kids(j)
    ensures Kid(Guarded(j, n), i) ==
            if i < n && !IsOpen(j, i) then Guard(j.fields[i].key, Kid(j, i)) else Kid(j, i)
  {
    if !IsOpen(j, i) {
      ObjectsOnly(j, i);
    }
    if n > 0 {
      if !IsOpen(j, n - 1) {
        ObjectsOnly(j, n - 1);
      }
      hide Guard, SetKid, Kid, SameShape, IsOpen;
      GuardedKid(j, n - 1, i);
    }
  }

  /** Guarding the listed fields and then wrapping the open children is wrapping. */
  lemma RoundWraps(j: Json)
    ensures var n := Kids(j);
            && (forall k | 0 <= k < |Open(j, n)| :: Open(j, n)[k] < n)
            && FinishKids(Guarded(j, n), Open(j, n)) == Wrap(j)
  {
    hide Wrap, Guarded, Open, FinishKids, IsOpen;
    var n := Kids(j);
    OpenAre(j, n);
    var g := Guarded(j, n);
    var r := FinishKids(g, Open(j, n));
    WrapKids(j);
    FinishShape(g, Open(j, n));
    GuardedShape(j, n);
    hide SameShape, Kid, Guard;
    ShapeTrans(r, g, j);
    ShapeBack(Wrap(j), j);
    ShapeTrans(r, j, Wrap(j));
    forall i: nat | i < n ensures Kid(r, i) == Kid(Wrap(j), i) {
      FinishKid(g, Open(j, n), i);
      GuardedKid(j, n, i);
    }
    SameKids(r, Wrap(j));
  }

  lemma WrapKids(j: Json)
    ensures SameShape(Wrap(j), j) && Kids(Wrap(j)) == Kids(j)
    ensures forall i: nat | i < Kids(j) ::
              Kid(Wrap(j), i) == if IsOpen(j, i) then Wrap(Kid(j, i)) else Guard(j.fields[i].key, Kid(j, i))
  {
  }

  /** What a round asks of the listed fields, and what it leaves to later rounds. */
  predicate RoundProtectable(j: Json) {
    if j.Private? then forall i | 0 <= i < |j.entries| :: !Listed(j.entries[i].key)
    else forall i: nat | i < Kids(j) :: IsOpen(j, i) || Guardable(j.fields[i].key, Kid(j, i))
  }

  lemma ProtectableSplits(j: Json)
    ensures Protectable(j) <==>
            RoundProtectable(j) && forall i: nat | i < Kids(j) && IsOpen(j, i) :: Protectable(Kid(j, i))
  {
    if j.Array? {
      assert forall i: nat | i < Kids(j) :: Kid(j, i) == j.items[i];
    } else if j.Object? {
      assert forall i: nat | i < Kids(j) :: Kid(j, i) == j.fields[i].value;
    }
  }

  // ----- termination -----

  function Size(j: Json): (n: nat)
    ensures n > 0
    decreases j, Kids(j) + 1
  {
    1 + SizeKids(j, Kids(j))
  }

  function SizeKids(j: Json, n: nat): (r: nat)
    requires n <= Kids(j)
    decreases j, n
  {
    if n == 0 then 0 else SizeKids(j, n - 1) + Size(Kid(j, n - 1))
  }

  function Total(j: Json, todo: seq<Path>): (n: nat)
    requires AllThere(j, todo)
  {
    if todo == [] then 0
    else Total(j, todo[..|todo| - 1]) + Size(At(j, todo[|todo| - 1]))
  }

  lemma {:induction false} TotalAppend(j: Json, a: seq<Path>, b: seq<Path>)
    requires AllThere(j, a) && AllThere(j, b)
    ensures AllThere(j, a + b) && Total(j, a + b) == Total(j, a) + Total(j, b)
  {
    if b == [] {
      assert a + b == a;
    } else {
      var init := b[..|b| - 1];
      TotalAppend(j, a, init);
      assert (a + b)[..|a + b| - 1] == a + init;
    }
  }

  lemma {:induction false} TotalSame(j: Json, j': Json, todo: seq<Path>)
    requires AllThere(j, todo) && AllThere(j', todo) && forall k | 0 <= k < |todo| :: At(j, todo[k]) == At(j', todo[k])
    ensures Total(j, todo) == Total(j', todo)
  {
    if todo != [] {
      TotalSame(j, j', todo[..|todo| - 1]);
    }
  }

  lemma {:induction false} TotalBelow(j: Json, p: Path, x: Json, n: nat)
    requires Has(j, p) && n <= Kids(x) && Kids(At(j, p)) == Kids(x)
    requires forall i: nat | i < n && IsOpen(x, i) :: Kid(At(j, p), i) == Kid(x, i)
    ensures AllThere(j, Below(p, Open(x, n))) && Total(j, Below(p, Open(x, n))) <= SizeKids(x, n)
  {
    hide Has, At, Put, IsOpen, Kid;
    if n > 0 {
      TotalBelow(j, p, x, n - 1);
      var before := Below(p, Open(x, n - 1));
      if IsOpen(x, n - 1) {
        PutBelow(j, p, n - 1, Null);
        assert Below(p, Open(x, n)) == before + [p + [n - 1]];
        TotalOne(j, p + [n - 1]);
        TotalAppend(j, before, [p + [n - 1]]);
      } else {
        assert Below(p, Open(x, n)) == before;
      }
    }
  }

  /** After a round at the last place: what is on the list, and how much it comes to. */
  lemma RoundKeeps(j: Json, todo: seq<Path>, p: Path)
    requires AllThere(j, todo + [p]) && AllApart(todo + [p])
    ensures Has(j, p)
    ensures var x := At(j, p); var n := Kids(x); var j' := Put(j, p, Guarded(x, n)); var next := todo + Below(p, Open(x, n));
            && AllThere(j', next) && AllApart(next) && Total(j', next) < Total(j, todo + [p])
            && Finish(j', next) == Finish(j, todo + [p])
            && (AllProtectable(j, todo + [p]) <==> RoundProtectable(x) && AllProtectable(j', next))
  {
    hide Finish, Total, FinishKids, Guarded, Protectable, Open, AllApart, AllThere, Put, At, Has;
    var all := todo + [p];
    Earlier(j, todo, p);
    var x := At(j, p);
    var n := Kids(x);
    var j', next := Put(j, p, Guarded(x, n)), todo + Below(p, Open(x, n));
    OpenAre(x, n);
    RoundThere(j, todo, p, x);
    RoundApart(todo, p, Open(x, n));
    RoundFinish(j, todo, p, x);
    RoundProtects(j, todo, p, x);
  }

  lemma Earlier(j: Json, todo: seq<Path>, p: Path)
    requires AllThere(j, todo + [p]) && AllApart(todo + [p])
    ensures Has(j, p) && AllThere(j, todo) && AllApart(todo)
    ensures forall k | 0 <= k < |todo| :: Apart(p, todo[k])
  {
    var all := todo + [p];
    assert all[|todo|] == p;
    assert forall k | 0 <= k < |todo| :: all[k] == todo[k];
  }

  lemma RoundThere(j: Json, todo: seq<Path>, p: Path, x: Json)
    requires Has(j, p) && At(j, p) == x && AllThere(j, todo) && forall k | 0 <= k < |todo| :: Apart(p, todo[k])
    ensures var j' := Put(j, p, Guarded(x, Kids(x))); var next := todo + Below(p, Open(x, Kids(x)));
            AllThere(j', next) && AllThere(j, todo + [p]) && Total(j', next) < Total(j, todo + [p])
  {
    hide Guarded, Open, Put, At, Total, Has;
    var n := Kids(x);
    var g := Guarded(x, n);
    var j', kids := Put(j, p, g), Below(p, Open(x, n));
    PutAt(j, p, g);
    forall k | 0 <= k < |todo| ensures Has(j', todo[k]) && At(j', todo[k]) == At(j, todo[k]) {
      PutApart(j, p, todo[k], g);
    }
    forall i: nat | i < n && IsOpen(x, i) ensures Kid(g, i) == Kid(x, i) {
      GuardedKid(x, n, i);
    }
    TotalBelow(j', p, x, n);
    TotalSame(j, j', todo);
    TotalAppend(j', todo, kids);
    TotalAppend(j, todo, [p]);
    TotalOne(j, p);
  }

  lemma TotalOne(j: Json, p: Path)
    requires Has(j, p)
    ensures AllThere(j, [p]) && Total(j, [p]) == 1 + SizeKids(At(j, p), Kids(At(j, p)))
  {
  }

  lemma RoundApart(todo: seq<Path>, p: Path, steps: seq<nat>)
    requires AllApart(todo) && Increasing(steps) && forall k | 0 <= k < |todo| :: Apart(p, todo[k])
    ensures AllApart(todo + Below(p, steps))
  {
    var kids := Below(p, steps);
    forall k | 0 <= k < |todo|, l | 0 <= l < |kids| ensures Apart(todo[k], kids[l]) {
      ApartBelow(todo[k], p, steps[l]);
    }
    forall k, l | 0 <= k < l < |kids| ensures Apart(kids[k], kids[l]) {
      assert kids[k][|p|] == steps[k] && kids[l][|p|] == steps[l];
    }
  }

  lemma ApartBelow(q: Path, p: Path, i: nat)
    requires Apart(p, q)
    ensures Apart(q, p + [i])
  {
  }

  lemma RoundFinish(j: Json, todo: seq<Path>, p: Path, x: Json)
    requires Has(j, p) && At(j, p) == x
    ensures Finish(Put(j, p, Guarded(x, Kids(x))), todo + Below(p, Open(x, Kids(x)))) == Finish(j, todo + [p])
  {
    hide Guarded, Open, Put, At, FinishKids, Has;
    var n := Kids(x);
    var g := Guarded(x, n);
    RoundWraps(x);
    PutAt(j, p, g);
    FinishBelow(Put(j, p, g), todo, p, Open(x, n));
    PutTwice(j, p, g, Wrap(x));
    var all := todo + [p];
    assert all[..|all| - 1] == todo;
  }

  lemma ProtectableLast(j: Json, todo: seq<Path>, p: Path)
    requires Has(j, p) && AllThere(j, todo) && AllThere(j, todo + [p])
    ensures AllProtectable(j, todo + [p]) <==> AllProtectable(j, todo) && Protectable(At(j, p))
  {
    hide Has, At, Protectable;
    var all := todo + [p];
    assert all[|todo|] == p;
    assert forall k | 0 <= k < |todo| :: all[k] == todo[k];
  }

  lemma RoundProtects(j: Json, todo: seq<Path>, p: Path, x: Json)
    requires Has(j, p) && At(j, p) == x && AllThere(j, todo) && forall k | 0 <= k < |todo| :: Apart(p, todo[k])
    requires AllThere(j, todo + [p])
    requires AllThere(Put(j, p, Guarded(x, Kids(x))), todo + Below(p, Open(x, Kids(x))))
    ensures AllProtectable(j, todo + [p]) <==>
            RoundProtectable(x) && AllProtectable(Put(j, p, Guarded(x, Kids(x))), todo + Below(p, Open(x, Kids(x))))
  {
    hide Guarded, Open, Put, At, Has, Protectable, RoundProtectable, IsOpen, Kid, Kids;
    var n := Kids(x);
    var g := Guarded(x, n);
    var j', kids := Put(j, p, g), Below(p, Open(x, n));
    ProtectableLast(j, todo, p);
    ProtectableSplits(x);
    PutAt(j, p, g);
    forall k | 0 <= k < |todo| ensures Has(j', todo[k]) && At(j', todo[k]) == At(j, todo[k]) {
      PutApart(j, p, todo[k], g);
    }
    OpenProtects(j', p, x);
    ProtectableBoth(j', todo, kids);
  }

  lemma ProtectableBoth(j: Json, a: seq<Path>, b: seq<Path>)
    requires AllThere(j, a) && AllThere(j, b) && AllThere(j, a + b)
    ensures AllProtectable(j, a + b) <==> AllProtectable(j, a) && AllProtectable(j, b)
  {
    hide Has, At, Protectable;
    var c := a + b;
    assert forall k | 0 <= k < |a| :: c[k] == a[k];
    assert forall k | 0 <= k < |b| :: c[|a| + k] == b[k];
  }

  /** The open children of a place are protectable exactly when they were before the round. */
  lemma OpenProtects(j: Json, p: Path, x: Json)
    requires Has(j, p) && At(j, p) == Guarded(x, Kids(x))
    ensures AllThere(j, Below(p, Open(x, Kids(x))))
    ensures AllProtectable(j, Below(p, Open(x, Kids(x)))) <==>
            forall i: nat | i < Kids(x) && IsOpen(x, i) :: Protectable(Kid(x, i))
  {
    hide Guarded, Open, Put, At, Has, Protectable, IsOpen, Kid, Kids;
    var n := Kids(x);
    var open, kids := Open(x, n), Below(p, Open(x, n));
    OpenAre(x, n);
    forall k | 0 <= k < |kids| ensures Has(j, kids[k]) && At(j, kids[k]) == Kid(x, open[k]) {
      assert open[k] in open;
      PutBelow(j, p, open[k], Null);
      GuardedKid(x, n, open[k]);
    }
    if !AllProtectable(j, kids) {
      var k :| 0 <= k < |kids| && !Protectable(At(j, kids[k]));
      assert open[k] in open && !Protectable(Kid(x, open[k]));
    }
    if i: nat :| i < n && IsOpen(x, i) && !Protectable(Kid(x, i)) {
      var k :| 0 <= k < |open| && open[k] == i;
      assert !Protectable(At(j, kids[k]));
    }
  }

  // ----- the loop -----

  class Document {
    var root: Json

    constructor (root: Json)
      ensures this.root == root
    {
      this.root := root;
    }

    /** The dictionary of a cluster field: each of its values becomes private. */
    method HideInside(p: Path) returns (ok: bool)
      requires Has(root, p)
      modifies this
      ensures var v := old(At(root, p));
              ok <==> Empty(v) || (v.Object? && forall f | f in v.fields :: Hideable(f.value))
      ensures var v := old(At(root, p));
              ok ==> root == Put(old(root), p, if v.Object? then Object(HideEach(v.fields)) else v)
    {
      var data := At(root, p);
      if !data.Object? {
        PutSame(root, p);
        return Empty(data);
      }
      var k := 0;
      ghost var value := data;
      PutSame(root, p);
      while k < |data.fields|
        invariant 0 <= k <= |data.fields| && value.Object? && |value.fields| == |data.fields|
        invariant root == Put(old(root), p, value)
        invariant forall i | 0 <= i < k ::
                    Hideable(data.fields[i].value) &&
                    value.fields[i] == Field(data.fields[i].key, Hide(data.fields[i].value))
        invariant forall i | k <= i < |data.fields| :: value.fields[i] == data.fields[i]
      {
        if !Hideable(data.fields[k].value) {
          return false;
        }
        ghost var hidden := Hide(data.fields[k].value);
        PutAt(old(root), p, value);
        PutBelow(root, p, k, hidden);
        root := Put(root, p + [k], Hide(At(root, p + [k])));
        PutTwice(old(root), p, value, SetKid(value, k, hidden));
        value := SetKid(value, k, hidden);
        k := k + 1;
      }
      assert value.fields == HideEach(data.fields);
      ok := true;
    }

    /** The loop over the fields of a dictionary; pushed is what it appends to the list. */
    method CrawlFields(p: Path) returns (ok: bool, pushed: seq<Path>)
      requires Has(root, p) && At(root, p).Object?
      modifies this
      ensures ok <==> RoundProtectable(old(At(root, p)))
      ensures var x := old(At(root, p)); var n := Kids(x);
              ok ==> root == Put(old(root), p, Guarded(x, n)) && pushed == Below(p, Open(x, n))
    {
      hide Has, At, Put, Hide, Guarded, Open, Listed, IsCluster;
      var data := At(root, p);
      ghost var start := root;
      pushed := [];
      GuardedStart(start, p, data);
      var i := 0;
      while i < |data.fields|
        invariant 0 <= i <= |data.fields| && root == Put(start, p, Guarded(data, i))
        invariant pushed == Below(p, Open(data, i))
        invariant forall k: nat | k < i :: IsOpen(data, k) || Guardable(data.fields[k].key, Kid(data, k))
      {
        var field := data.fields[i].key;
        PlaceOfField(start, p, data, i, Guard(field, Kid(data, i)));
        var value := At(root, p + [i]);
        if Listed(field) {
          if !IsCluster(field) {
            if !Hideable(value) {
              return false, [];
            }
            root := Put(root, p + [i], Hide(value));
          } else if !value.Null? {
            var fine := HideInside(p + [i]);
            if !fine {
              return false, [];
            }
          }
        } else {
          pushed := pushed + [p + [i]];
        }
        i := i + 1;
      }
      ok := true;
    }

    method CrawlItems(p: Path) returns (pushed: seq<Path>)
      requires Has(root, p) && At(root, p).Array?
      ensures RoundProtectable(At(root, p))
      ensures var x := At(root, p); var n := Kids(x);
              root == Put(root, p, Guarded(x, n)) && pushed == Below(p, Open(x, n))
    {
      var data := At(root, p);
      PutSame(root, p);
      pushed := [];
      var i := 0;
      while i < |data.items|
        invariant 0 <= i <= |data.items| && Guarded(data, i) == data
        invariant pushed == Below(p, Open(data, i))
      {
        pushed := pushed + [p + [i]];
        i := i + 1;
      }
    }

    /** The worklist does what the recursive definition says, and fails exactly where that does not apply. */
    method WrapPrivateValues() returns (ok: bool)
      modifies this
      ensures ok <==> Protectable(old(root))
      ensures ok ==> root == Wrap(old(root))
    {
      hide Has, At, Put, Finish, Total, Protectable, RoundProtectable, Guarded, Open, AllThere, AllApart, AllProtectable;
      var todo: seq<Path> := [[]];
      Beginning(root);
      while todo != []
        invariant AllThere(root, todo) && AllApart(todo)
        invariant Finish(root, todo) == Wrap(old(root))
        invariant AllProtectable(root, todo) <==> Protectable(old(root))
        decreases if AllThere(root, todo) then Total(root, todo) else 0
      {
        var p := todo[|todo| - 1];
        var rest := todo[..|todo| - 1];
        assert todo == rest + [p];
        RoundKeeps(root, rest, p);
        var data := At(root, p);
        var fine, pushed := true, [];
        if data.Array? {
          pushed := CrawlItems(p);
        } else if data.Object? {
          fine, pushed := CrawlFields(p);
        } else {
          fine := !data.Private? || forall f | f in data.entries :: !Listed(f.key);
          Childless(root, p);
        }
        if !fine {
          return false;
        }
        todo := rest + pushed;
      }
      NothingLeft(root);
      ok := true;
    }
  }

  lemma Beginning(j: Json)
    ensures AllThere(j, [[]]) && AllApart([[]]) && Finish(j, [[]]) == Wrap(j)
    ensures AllProtectable(j, [[]]) <==> Protectable(j)
  {
  }

  lemma NothingLeft(j: Json)
    ensures AllThere(j, []) && AllProtectable(j, []) && Finish(j, []) == j
  {
  }

  lemma Childless(j: Json, p: Path)
    requires Has(j, p) && !At(j, p).Array? && !At(j, p).Object?
    ensures var x := At(j, p);
            && Kids(x) == 0 && j == Put(j, p, Guarded(x, 0)) && Below(p, Open(x, 0)) == []
            && (RoundProtectable(x) <==> (!x.Private? || forall f | f in x.entries :: !Listed(f.key)))
  {
  }

  lemma GuardedStart(j: Json, p: Path, x: Json)
    requires Has(j, p) && At(j, p) == x
    ensures Put(j, p, Guarded(x, 0)) == j && Below(p, Open(x, 0)) == []
  {
  }

  /** Where the loop over the fields stands: at a field that is still as it was. */
  lemma PlaceOfField(start: Json, p: Path, x: Json, i: nat, v: Json)
    requires Has(start, p) && At(start, p) == x && x.Object? && i < |x.fields|
    ensures var j := Put(start, p, Guarded(x, i));
            && Has(j, p + [i]) && At(j, p + [i]) == Kid(x, i)
            && Put(j, p + [i], v) == Put(start, p, SetKid(Guarded(x, i), i, v))
            && Below(p, Open(x, i + 1)) == Below(p, Open(x, i)) + (if IsOpen(x, i) then [p + [i]] else [])
            && Guarded(x, i + 1) ==
               (if IsOpen(x, i) then Guarded(x, i) else SetKid(Guarded(x, i), i, Guard(x.fields[i].key, Kid(x, i))))
            && Put(start, p, SetKid(Guarded(x, i), i, Kid(x, i))) == j
  {
    hide Has, At, Put, Guard;
    var g := Guarded(x, i);
    GuardedKid(x, i, i);
    PutAt(start, p, g);
    PutBelow(Put(start, p, g), p, i, v);
    PutTwice(start, p, g, SetKid(g, i, v));
    SetKidSame(g, i);
  }
}
