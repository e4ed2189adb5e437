/** The IPv4 address pool of a network: two bitmaps, mirrored into the network object's text (lib/network.py). */
module AddressPools {
  import opened Basics
  import opened Text
  import opened Bits

  const IPV4_NETWORK_MIN_SIZE: nat := 30
  const IPV4_NETWORK_MAX_SIZE: nat := 16

  datatype Outcome = Done | Address(address: nat) | AddressPoolError | AssertionError | ValueError

  // ----- the pool as a value -----

  /** base is the network address as an integer; both maps have one entry per address. */
  datatype Pool = Pool(base: nat, internal: seq<bool>, external: seq<bool>) {
    predicate WellFormed() {
      |internal| == |external|
    }

    /** all_reservations */
    function All(): (r: seq<bool>)
      requires WellFormed()
      ensures |r| == |internal| && forall i | 0 <= i < |r| :: r[i] == (internal[i] || external[i])
    {
      seq(|internal|, i requires 0 <= i < |internal| => internal[i] || external[i])
    }

    predicate Contains(address: nat) {
      base <= address < base + |internal|
    }

    predicate IsReserved(address: nat, ext: bool)
      requires WellFormed() && Contains(address)
    {
      if ext then external[address - base] else internal[address - base]
    }

    function Mark(address: nat, value: bool, ext: bool): (r: Pool)
      requires WellFormed() && Contains(address)
      ensures r.WellFormed()
    {
      if ext then this.(external := external[address - base := value])
      else this.(internal := internal[address - base := value])
    }
  }

  function Count(bits: seq<bool>, value: bool): (r: nat) {
    if bits == [] then 0 else (if bits[0] == value then 1 else 0) + Count(bits[1..], value)
  }

  /** bitarray.index(False), or the length if there is none. */
  function FirstFree(bits: seq<bool>): (i: nat)
    ensures i <= |bits| && (i < |bits| ==> !bits[i]) && forall j | 0 <= j < i :: bits[j]
  {
    if bits == [] || !bits[0] then 0 else 1 + FirstFree(bits[1..])
  }

  predicate IsFull(bits: seq<bool>) {
    forall i | 0 <= i < |bits| :: bits[i]
  }

  function ReserveStep(p: Pool, address: nat, ext: bool): (r: (Pool, Outcome))
    requires p.WellFormed()
    ensures r.0.WellFormed()
  {
    if !p.Contains(address) || p.IsReserved(address, ext) then (p, AddressPoolError)
    else (p.Mark(address, true, ext), Done)
  }

  function ReleaseStep(p: Pool, address: nat, ext: bool): (r: (Pool, Outcome))
    requires p.WellFormed()
    ensures r.0.WellFormed()
  {
    if !p.Contains(address) || !p.IsReserved(address, ext) then (p, AddressPoolError)
    else (p.Mark(address, false, ext), Done)
  }

  function GetStep(p: Pool): (r: (Pool, Outcome))
    requires p.WellFormed()
    ensures r.0.WellFormed()
  {
    if IsFull(p.All()) then (p, AddressPoolError)
    else
      var address := p.base + FirstFree(p.All());
      var (q, outcome) := ReserveStep(p, address, false);
      (q, if outcome == Done then Address(address) else outcome)
  }

  /** The reservations that InitializeNetwork makes: network, broadcast and gateway address. */
  function InitializeStep(p: Pool, gateway: Option<nat>): (r: (Pool, Outcome))
    requires p.WellFormed() && |p.internal| > 0
    ensures r.0.WellFormed()
  {
    var (p1, o1) := ReserveStep(p, p.base, true);
    if o1 != Done then (p1, o1)
    else
      var (p2, o2) := ReserveStep(p1, p.base + |p.internal| - 1, true);
      if o2 != Done || gateway.None? then (p2, o2)
      else ReserveStep(p2, gateway.value, true)
  }

  // ----- handing out addresses, once -----

  /** GetFreeAddress fails only on a full pool, and what it hands out was free in both maps. */
  lemma GetIsFresh(p: Pool)
    requires p.WellFormed()
    ensures var (q, outcome) := GetStep(p);
            if IsFull(p.All()) then (q, outcome) == (p, AddressPoolError)
            else && outcome.Address? && p.Contains(outcome.address)
                 && !p.IsReserved(outcome.address, false) && !p.IsReserved(outcome.address, true)
                 && (forall i | 0 <= i < outcome.address - p.base :: p.All()[i])
                 && q == p.Mark(outcome.address, true, false)
  {
  }

  /** The free addresses from index i on, in ascending order. */
  function FreeFrom(bits: seq<bool>, base: nat, i: nat): (r: seq<nat>)
    requires i <= |bits|
    decreases |bits| - i
  {
    if i == |bits| then []
    else (if bits[i] then [] else [base + i]) + FreeFrom(bits, base, i + 1)
  }

  function FreeAddresses(p: Pool): (r: seq<nat>)
    requires p.WellFormed()
  {
    FreeFrom(p.All(), p.base, 0)
  }

  /** What k calls of GetFreeAddress hand out, and the pool they leave; it stops at the first error. */
  function Gets(p: Pool, k: nat): (r: (Pool, seq<nat>))
    requires p.WellFormed()
    ensures r.0.WellFormed()
    decreases k
  {
    if k == 0 then (p, [])
    else
      var (q, outcome) := GetStep(p);
      if !outcome.Address? then (p, [])
      else
        var (q', rest) := Gets(q, k - 1);
        (q', [outcome.address] + rest)
  }

  lemma {:induction false} FreeFromSkips(bits: seq<bool>, base: nat, i: nat, j: nat)
    requires i <= j <= |bits| && forall k | i <= k < j :: bits[k]
    ensures FreeFrom(bits, base, i) == FreeFrom(bits, base, j)
    decreases j - i
  {
    if i < j {
      FreeFromSkips(bits, base, i + 1, j);
    }
  }

  lemma {:induction false} FreeFromSame(bits: seq<bool>, bits': seq<bool>, base: nat, i: nat)
    requires |bits| == |bits'| && i <= |bits| && forall k | i <= k < |bits| :: bits[k] == bits'[k]
    ensures FreeFrom(bits, base, i) == FreeFrom(bits', base, i)
    decreases |bits| - i
  {
    if i < |bits| {
      FreeFromSame(bits, bits', base, i + 1);
    }
  }

  /** One call takes the head of the list of free addresses. */
  lemma GetTakesHead(p: Pool)
    requires p.WellFormed()
    ensures var (q, outcome) := GetStep(p);
            if FreeAddresses(p) == [] then (q, outcome) == (p, AddressPoolError)
            else && outcome == Address(FreeAddresses(p)[0])
                 && FreeAddresses(q) == FreeAddresses(p)[1..]
  {
    GetIsFresh(p);
    var bits, i := p.All(), FirstFree(p.All());
    if i < |bits| {
      assert !IsFull(bits);
      var bits' := GetStep(p).0.All();
      assert forall k | 0 <= k < |bits| :: bits'[k] == (bits[k] || k == i);
      FreeHead(bits, bits', p.base, i);
    } else {
      FreeFromSkips(bits, p.base, 0, i);
    }
  }

  lemma FreeHead(bits: seq<bool>, bits': seq<bool>, base: nat, i: nat)
    requires |bits| == |bits'| && i < |bits| && !bits[i] && forall k | 0 <= k < i :: bits[k]
    requires forall k | 0 <= k < |bits| :: bits'[k] == (bits[k] || k == i)
    ensures FreeFrom(bits, base, 0) == [base + i] + FreeFrom(bits', base, 0)
  {
    FreeFromSkips(bits, base, 0, i);
    FreeFromSkips(bits', base, 0, i + 1);
    FreeFromSame(bits, bits', base, i + 1);
  }

  /** Any number of calls hands out the free addresses in ascending order until none is left. */
  lemma {:induction false} GetsDrain(p: Pool, k: nat)
    requires p.WellFormed()
    ensures var free := FreeAddresses(p); var (q, got) := Gets(p, k);
            var n := if k <= |free| then k else |free|;
            && got == free[..n]
            && FreeAddresses(q) == free[n..]
            && (k > |free| ==> GetStep(q) == (q, AddressPoolError))
    decreases k
  {
    hide FreeAddresses, GetStep;
    GetTakesHead(p);
    if k > 0 && FreeAddresses(p) != [] {
      GetsDrain(GetStep(p).0, k - 1);
    }
  }

  // ----- a freshly initialised network -----

  function Empty(base: nat, size: nat): (p: Pool)
    ensures p.WellFormed()
  {
    var none := seq(size, _ => false);
    Pool(base, none, none)
  }

  /** The host addresses of a network, in ascending order. */
  function Hosts(base: nat, size: nat, gateway: Option<nat>, i: nat): (r: seq<nat>)
    requires i < size
    decreases size - i
  {
    if i == size - 1 then []
    else (if i == 0 || gateway == Some(base + i) then [] else [base + i]) + Hosts(base, size, gateway, i + 1)
  }

  predicate Ascending(s: seq<nat>) {
    forall k, l | 0 <= k < l < |s| :: s[k] < s[l]
  }

  lemma {:induction false} HostsAre(base: nat, size: nat, gateway: Option<nat>, i: nat)
    requires i < size
    ensures var r := Hosts(base, size, gateway, i);
            && (forall k | 0 <= k < |r| :: base + i <= r[k] < base + size - 1 && r[k] != base && Some(r[k]) != gateway)
            && Ascending(r)
    decreases size - i
  {
    if i < size - 1 {
      HostsAre(base, size, gateway, i + 1);
      HostsNext(base, size, gateway, i);
      hide Hosts;
      var rest := Hosts(base, size, gateway, i + 1);
      AscendingCons(base + i, rest);
    }
  }

  lemma HostsNext(base: nat, size: nat, gateway: Option<nat>, i: nat)
    requires i < size - 1
    ensures var rest := Hosts(base, size, gateway, i + 1);
            Hosts(base, size, gateway, i) ==
            if i == 0 || gateway == Some(base + i) then rest else [base + i] + rest
  {
  }

  lemma AscendingCons(x: nat, rest: seq<nat>)
    requires Ascending(rest) && forall k | 0 <= k < |rest| :: x < rest[k]
    ensures Ascending([x] + rest)
  {
  }

  lemma {:induction false} HostsCount(base: nat, size: nat, gateway: Option<nat>, i: nat)
    requires 0 < i < size
    requires gateway.Some? ==> base < gateway.value < base + size - 1
    ensures |Hosts(base, size, gateway, i)| ==
            size - 1 - i - (if gateway.Some? && base + i <= gateway.value then 1 else 0)
    decreases size - i
  {
    if i < size - 1 {
      HostsCount(base, size, gateway, i + 1);
    }
  }

  lemma {:induction false} FreeAreHosts(bits: seq<bool>, base: nat, gateway: Option<nat>, i: nat)
    requires i < |bits|
    requires forall k | 0 <= k < |bits| ::
               bits[k] <==> k == 0 || k == |bits| - 1 || gateway == Some(base + k)
    ensures FreeFrom(bits, base, i) == Hosts(base, |bits|, gateway, i)
    decreases |bits| - i
  {
    if i < |bits| - 1 {
      FreeAreHosts(bits, base, gateway, i + 1);
    }
  }

  /** The gateway of a network must be one of its host addresses. */
  predicate GoodGateway(base: nat, size: nat, gateway: Option<nat>) {
    gateway.Some? ==> base < gateway.value < base + size - 1
  }

  /**
   * Initialising a network without reservations succeeds exactly for a good gateway. It then yields
   * size - 2 addresses (size - 3 with a gateway), ascending: the hosts, never network, broadcast or gateway.
   */
  lemma FreshNetworkYieldsHosts(base: nat, size: nat, gateway: Option<nat>)
    requires size >= Pow2(32 - IPV4_NETWORK_MIN_SIZE)
    ensures var (p, outcome) := InitializeStep(Empty(base, size), gateway);
            && (outcome == Done <==> GoodGateway(base, size, gateway))
            && (outcome == Done ==>
                  && |FreeAddresses(p)| == size - (if gateway.Some? then 3 else 2)
                  && Gets(p, size).1 == FreeAddresses(p)
                  && (forall k | 0 <= k < |FreeAddresses(p)| ::
                        base < FreeAddresses(p)[k] < base + size - 1 && Some(FreeAddresses(p)[k]) != gateway)
                  && Ascending(FreeAddresses(p)))
  {
    assert size >= 4;
    hide Pow2, InitializeStep, FreeAddresses, Gets, Ascending;
    FreshOutcome(base, size, gateway);
    var (p, outcome) := InitializeStep(Empty(base, size), gateway);
    if outcome == Done {
      ReservedYieldsHosts(p, gateway);
    }
  }

  /** Exactly network, broadcast and gateway address are taken. */
  ghost predicate OnlyReserved(p: Pool, gateway: Option<nat>)
    requires p.WellFormed()
  {
    forall k | 0 <= k < |p.All()| :: p.All()[k] <==> k == 0 || k == |p.All()| - 1 || gateway == Some(p.base + k)
  }

  lemma ReservedYieldsHosts(p: Pool, gateway: Option<nat>)
    requires p.WellFormed() && |p.internal| >= 4 && OnlyReserved(p, gateway)
    requires GoodGateway(p.base, |p.internal|, gateway)
    ensures var free, size := FreeAddresses(p), |p.internal|;
            && |free| == size - (if gateway.Some? then 3 else 2) && Gets(p, size).1 == free
            && (forall k | 0 <= k < |free| :: p.base < free[k] < p.base + size - 1 && Some(free[k]) != gateway)
            && Ascending(free)
  {
    hide FreeFrom, Hosts, Gets, Ascending;
    var base, size := p.base, |p.internal|;
    FreeAreHosts(p.All(), base, gateway, 0);
    HostsNext(base, size, gateway, 0);
    HostsCount(base, size, gateway, 1);
    HostsAre(base, size, gateway, 1);
    GetsDrain(p, size);
  }

  /** Three reservations, of which the third depends on the gateway. */
  lemma FreshOutcome(base: nat, size: nat, gateway: Option<nat>)
    requires size >= 4
    ensures var (p, outcome) := InitializeStep(Empty(base, size), gateway);
            && (outcome == Done <==> GoodGateway(base, size, gateway))
            && p.base == base && |p.internal| == size
            && (outcome == Done ==> OnlyReserved(p, gateway))
  {
    var p0 := Empty(base, size);
    var p1 := ReserveStep(p0, base, true).0;
    assert p1.external == p0.external[0 := true];
    var p2 := ReserveStep(p1, base + size - 1, true).0;
    assert p2.external == p1.external[size - 1 := true];
  }

  // ----- any sequence of calls -----

  datatype Op = GetFree | Reserve(address: nat, ext: bool) | Release(address: nat, ext: bool)

  function Do(p: Pool, op: Op): (r: (Pool, Outcome))
    requires p.WellFormed()
    ensures r.0.WellFormed()
  {
    match op
    case GetFree => GetStep(p)
    case Reserve(a, ext) => ReserveStep(p, a, ext)
    case Release(a, ext) => ReleaseStep(p, a, ext)
  }

  function After(p: Pool, ops: seq<Op>): (r: Pool)
    requires p.WellFormed()
    ensures r.WellFormed()
  {
    if ops == [] then p else Do(After(p, ops[..|ops| - 1]), ops[|ops| - 1]).0
  }

  function Without(s: seq<nat>, a: nat): (r: seq<nat>)
    ensures forall x :: x in r <==> x in s && x != a
  {
    if s == [] then [] else (if s[0] == a then [] else [s[0]]) + Without(s[1..], a)
  }

  /** The addresses got and not yet released once op has ended with the outcome. */
  function HeldNow(held: seq<nat>, op: Op, outcome: Outcome): (r: seq<nat>) {
    if outcome.Address? then held + [outcome.address]
    else if op.Release? && !op.ext && outcome == Done then Without(held, op.address)
    else held
  }

  function Held(p: Pool, ops: seq<Op>): (r: seq<nat>)
    requires p.WellFormed()
  {
    if ops == [] then []
    else
      var init, op := ops[..|ops| - 1], ops[|ops| - 1];
      HeldNow(Held(p, init), op, Do(After(p, init), op).1)
  }

  predicate Distinct(s: seq<nat>) {
    forall i, j | 0 <= i < j < |s| :: s[i] != s[j]
  }

  lemma {:induction false} WithoutDistinct(s: seq<nat>, a: nat)
    requires Distinct(s)
    ensures Distinct(Without(s, a))
  {
    if s != [] {
      WithoutDistinct(s[1..], a);
      var rest := Without(s[1..], a);
      assert forall x | x in rest :: x in s[1..];
      assert s[0] !in rest;
    }
  }

  /** Every address in the list is one of the pool's and taken in the internal map. */
  predicate Taken(p: Pool, held: seq<nat>)
    requires p.WellFormed()
  {
    forall a | a in held :: p.Contains(a) && p.IsReserved(a, false)
  }

  lemma StepKeepsHeld(p: Pool, held: seq<nat>, op: Op)
    requires p.WellFormed() && Distinct(held) && Taken(p, held)
    ensures var (q, outcome) := Do(p, op);
            Distinct(HeldNow(held, op, outcome)) && Taken(q, HeldNow(held, op, outcome))
  {
    match op
    case GetFree => GetIsFresh(p);
    case Reserve(a, ext) =>
    case Release(a, ext) => WithoutDistinct(held, a);
  }

  /** Whatever is called in whatever order, nobody is given an address that somebody still holds. */
  lemma {:induction false} HeldAreDistinct(p: Pool, ops: seq<Op>)
    requires p.WellFormed()
    ensures Distinct(Held(p, ops)) && Taken(After(p, ops), Held(p, ops))
  {
    if ops != [] {
      var init := ops[..|ops| - 1];
      HeldAreDistinct(p, init);
      StepKeepsHeld(After(p, init), Held(p, init), ops[|ops| - 1]);
    }
  }

  /** The next address handed out is held by nobody. */
  lemma NextIsNotHeld(p: Pool, ops: seq<Op>)
    requires p.WellFormed()
    ensures var outcome := GetStep(After(p, ops)).1; outcome.Address? ==> outcome.address !in Held(p, ops)
  {
    HeldAreDistinct(p, ops);
    GetIsFresh(After(p, ops));
  }

  // ----- what one call undoes -----

  /** Nothing but the one entry differs. */
  ghost predicate DiffersAt(p: Pool, q: Pool, address: nat, ext: bool)
    requires p.WellFormed() && q.WellFormed()
  {
    && q.base == p.base && |q.internal| == |p.internal|
    && forall a, e | p.Contains(a) && !(a == address && e == ext) :: q.IsReserved(a, e) == p.IsReserved(a, e)
  }

  lemma MarkBack(p: Pool, address: nat, value: bool, ext: bool)
    requires p.WellFormed() && p.Contains(address) && p.IsReserved(address, ext) == value
    ensures p.Mark(address, !value, ext).Mark(address, value, ext) == p
  {
    var k := address - p.base;
    if ext {
      assert p.external[k := !value][k := value] == p.external;
    } else {
      assert p.internal[k := !value][k := value] == p.internal;
    }
  }

  /** A release works exactly for a reserved address of the network. It changes that entry alone, and
      reserving the address again gives the old pool back. */
  lemma ReleaseFrees(p: Pool, address: nat, ext: bool)
    requires p.WellFormed()
    ensures var (q, outcome) := ReleaseStep(p, address, ext);
            && (outcome == Done <==> p.Contains(address) && p.IsReserved(address, ext))
            && (outcome != Done ==> (q, outcome) == (p, AddressPoolError))
            && (outcome == Done ==>
                  && DiffersAt(p, q, address, ext) && !q.IsReserved(address, ext)
                  && ReserveStep(q, address, ext) == (p, Done))
  {
    if p.Contains(address) && p.IsReserved(address, ext) {
      MarkBack(p, address, true, ext);
    }
  }

  /** The same for a reservation: it works exactly for a free address, and a release undoes it. */
  lemma ReserveTakes(p: Pool, address: nat, ext: bool)
    requires p.WellFormed()
    ensures var (q, outcome) := ReserveStep(p, address, ext);
            && (outcome == Done <==> p.Contains(address) && !p.IsReserved(address, ext))
            && (outcome != Done ==> (q, outcome) == (p, AddressPoolError))
            && (outcome == Done ==>
                  && DiffersAt(p, q, address, ext) && q.IsReserved(address, ext)
                  && ReleaseStep(q, address, ext) == (p, Done))
  {
    if p.Contains(address) && !p.IsReserved(address, ext) {
      MarkBack(p, address, false, ext);
    }
  }

  lemma {:induction false} FreeIsListed(bits: seq<bool>, base: nat, i: nat, k: nat)
    requires i <= k < |bits| && !bits[k]
    ensures base + k in FreeFrom(bits, base, i)
    decreases |bits| - i
  {
    if i < k {
      FreeIsListed(bits, base, i + 1, k);
    }
  }

  /** A released address that is free in the other map as well is handed out again by enough calls. */
  lemma ReleasedComesBack(p: Pool, address: nat, ext: bool)
    requires p.WellFormed() && p.Contains(address) && p.IsReserved(address, ext) && !p.IsReserved(address, !ext)
    ensures var q := ReleaseStep(p, address, ext).0; address in Gets(q, |FreeAddresses(q)|).1
  {
    ReleaseFrees(p, address, ext);
    var q := ReleaseStep(p, address, ext).0;
    assert !q.IsReserved(address, !ext);
    FreeComesUp(q, address);
  }

  lemma FreeComesUp(p: Pool, address: nat)
    requires p.WellFormed() && p.Contains(address) && !p.IsReserved(address, false) && !p.IsReserved(address, true)
    ensures address in Gets(p, |FreeAddresses(p)|).1
  {
    hide Gets, FreeFrom, GetStep;
    var free := FreeAddresses(p);
    FreeIsListed(p.All(), p.base, 0, address - p.base);
    GetsDrain(p, |free|);
    assert free[..|free|] == free;
  }

  // ----- counts -----

  lemma {:induction false} CountsAddUp(bits: seq<bool>)
    ensures Count(bits, true) + Count(bits, false) == |bits|
  {
    if bits != [] {
      CountsAddUp(bits[1..]);
    }
  }

  lemma {:induction false} CountFree(bits: seq<bool>, base: nat, i: nat)
    requires i <= |bits|
    ensures |FreeFrom(bits, base, i)| == Count(bits[i..], false)
    decreases |bits| - i
  {
    if i < |bits| {
      CountFree(bits, base, i + 1);
      assert bits[i..][1..] == bits[i + 1..];
    }
  }

  // ----- the text in the network object -----

  function To01(bits: seq<bool>): (r: string)
    ensures |r| == |bits| && forall i | 0 <= i < |bits| :: r[i] == (if bits[i] then '1' else '0')
  {
    seq(|bits|, i requires 0 <= i < |bits| => if bits[i] then '1' else '0')
  }

  predicate Is01(s: string) {
    forall i | 0 <= i < |s| :: s[i] in "01"
  }

  /** bitarray(text), or all addresses free for a missing or empty text. */
  function From01(s: string, size: nat): (r: seq<bool>) {
    if s == "" then seq(size, _ => false) else seq(|s|, i requires 0 <= i < |s| => s[i] == '1')
  }

  lemma From01To01(bits: seq<bool>, size: nat)
    requires |bits| == size > 0
    ensures Is01(To01(bits)) && From01(To01(bits), size) == bits
  {
  }

  /** Without texts nothing is reserved. */
  lemma NoTextNothingTaken(base: nat, size: nat)
    ensures Pool(base, From01("", size), From01("", size)) == Empty(base, size)
    ensures forall k | 0 <= k < size :: !Empty(base, size).All()[k]
  {
  }

  /** objects.Network, with its address texts read as integers. */
  class Network {
    const base: nat
    const prefix: nat
    const gateway: Option<nat>
    var reservations: string
    var extReservations: string

    constructor (base: nat, prefix: nat, gateway: Option<nat>, reservations: string, extReservations: string)
      ensures this.base == base && this.prefix == prefix && this.gateway == gateway
      ensures this.reservations == reservations && this.extReservations == extReservations
    {
      this.base, this.prefix, this.gateway := base, prefix, gateway;
      this.reservations, this.extReservations := reservations, extReservations;
    }

    function Size(): (n: nat)
      requires prefix <= 32
    {
      Pow2(32 - prefix)
    }

    predicate Readable()
      requires prefix <= 32
      reads this
    {
      && Is01(reservations) && Is01(extReservations)
      && |From01(reservations, Size())| == Size() == |From01(extReservations, Size())|
    }

    /** The pool that the texts stand for. */
    function Rebuilt(): (p: Pool)
      requires prefix <= 32
      reads this
    {
      Pool(base, From01(reservations, Size()), From01(extReservations, Size()))
    }
  }

  class AddressPool {
    const net: Network
    const reservations: array<bool>
    const extReservations: array<bool>

    predicate Valid()
      reads this, net, reservations, extReservations
    {
      && IPV4_NETWORK_MAX_SIZE <= net.prefix <= IPV4_NETWORK_MIN_SIZE
      && reservations != extReservations
      && reservations.Length == net.Size() == extReservations.Length
      && net.Readable() && net.Rebuilt() == Abs()
    }

    function Abs(): (p: Pool)
      reads this, net, reservations, extReservations
    {
      Pool(net.base, reservations[..], extReservations[..])
    }

    constructor (net: Network)
      requires IPV4_NETWORK_MAX_SIZE <= net.prefix <= IPV4_NETWORK_MIN_SIZE && net.Readable()
      ensures this.net == net && Valid() && Abs() == net.Rebuilt()
      ensures fresh(reservations) && fresh(extReservations)
    {
      var n := net.Size();
      var bits, extBits := From01(net.reservations, n), From01(net.extReservations, n);
      var a := new bool[n](i requires 0 <= i < n => bits[i]);
      var b := new bool[n](i requires 0 <= i < n => extBits[i]);
      this.net, reservations, extReservations := net, a, b;
      new;
      assert a[..] == bits && b[..] == extBits;
    }

    /** AddressPool.__init__: None with the exception it raises. */
    static method Open(net: Network) returns (pool: AddressPool?, outcome: Outcome)
      requires net.prefix <= 32
      ensures pool != null <==> outcome == Done
      ensures net.prefix < 16 || net.prefix > 30 ==> outcome == AddressPoolError
      ensures 16 <= net.prefix <= 30 ==> (outcome == Done <==> net.Readable())
      ensures pool != null ==> pool.Valid() && pool.net == net && pool.Abs() == net.Rebuilt()
      ensures pool != null ==> fresh(pool) && fresh(pool.reservations) && fresh(pool.extReservations)
    {
      hide Pow2, From01, Is01;
      pool := null;
      SizeLimits(net.prefix);
      if net.Size() > Pow2(32 - IPV4_NETWORK_MAX_SIZE) {
        return null, AddressPoolError;
      }
      if net.Size() < Pow2(32 - IPV4_NETWORK_MIN_SIZE) {
        return null, AddressPoolError;
      }
      if !Is01(net.reservations) || !Is01(net.extReservations) {
        return null, ValueError;
      }
      if |From01(net.reservations, net.Size())| != net.Size() {
        return null, AssertionError;
      }
      if |From01(net.extReservations, net.Size())| != net.Size() {
        return null, AssertionError;
      }
      pool := new AddressPool(net);
      outcome := Done;
    }

    method Update()
      requires IPV4_NETWORK_MAX_SIZE <= net.prefix <= IPV4_NETWORK_MIN_SIZE && reservations != extReservations
      requires reservations.Length == net.Size() == extReservations.Length
      modifies net
      ensures Valid()
      ensures net.reservations == To01(reservations[..]) && net.extReservations == To01(extReservations[..])
    {
      net.extReservations := To01(extReservations[..]);
      net.reservations := To01(reservations[..]);
      From01To01(reservations[..], net.Size());
      From01To01(extReservations[..], net.Size());
    }

    method GetAddrIndex(address: nat) returns (idx: Option<nat>)
      requires Valid()
      ensures idx == if Abs().Contains(address) then Some(address - net.base) else None
    {
      if !(net.base <= address < net.base + net.Size()) {
        return None;
      }
      return Some(address - net.base);
    }

    method Mark(address: nat, value: bool, external: bool)
      requires Valid() && Abs().Contains(address)
      modifies net, reservations, extReservations
      ensures Valid() && Abs() == old(Abs()).Mark(address, value, external)
    {
      var idx := GetAddrIndex(address);
      if external {
        extReservations[idx.value] := value;
      } else {
        reservations[idx.value] := value;
      }
      Update();
      assert Abs() == old(Abs()).Mark(address, value, external);
    }

    method IsReserved(address: nat, external: bool) returns (r: Option<bool>)
      requires Valid()
      ensures r == if Abs().Contains(address) then Some(Abs().IsReserved(address, external)) else None
    {
      var idx := GetAddrIndex(address);
      if idx.None? {
        return None;
      }
      return Some(if external then extReservations[idx.value] else reservations[idx.value]);
    }

    method Reserve(address: nat, external: bool) returns (outcome: Outcome)
      requires Valid()
      modifies net, reservations, extReservations
      ensures Valid() && (Abs(), outcome) == ReserveStep(old(Abs()), address, external)
    {
      var reserved := IsReserved(address, external);
      if reserved != Some(false) {
        return AddressPoolError;
      }
      Mark(address, true, external);
      return Done;
    }

    method Release(address: nat, external: bool) returns (outcome: Outcome)
      requires Valid()
      modifies net, reservations, extReservations
      ensures Valid() && (Abs(), outcome) == ReleaseStep(old(Abs()), address, external)
    {
      var reserved := IsReserved(address, external);
      if reserved != Some(true) {
        return AddressPoolError;
      }
      Mark(address, false, external);
      return Done;
    }

    method GetFreeAddress() returns (outcome: Outcome)
      requires Valid()
      modifies net, reservations, extReservations
      ensures Valid() && (Abs(), outcome) == GetStep(old(Abs()))
    {
      hide From01, Is01, Pow2, ReserveStep, IsFull, FirstFree;
      if IsFull(Abs().All()) {
        return AddressPoolError;
      }
      var idx := FirstFree(Abs().All());
      var address := net.base + idx;
      outcome := Reserve(address, false);
      if outcome == Done {
        outcome := Address(address);
      }
    }

    /** The address that GetFreeAddress would hand out, without taking it. */
    method GenerateFree() returns (outcome: Outcome)
      requires Valid()
      ensures outcome == GetStep(Abs()).1
    {
      GetIsFresh(Abs());
      var idx := FirstFree(Abs().All());
      if idx < |Abs().All()| {
        return Address(net.base + idx);
      }
      return AddressPoolError;
    }

    /** GetReservedCount and GetFreeCount. */
    method Counts() returns (reserved: nat, free: nat)
      requires Valid()
      ensures reserved + free == Pow2(32 - net.prefix)
      ensures free == |FreeAddresses(Abs())| && (free == 0 <==> IsFull(Abs().All()))
    {
      var bits := Abs().All();
      reserved, free := Count(bits, true), Count(bits, false);
      CountsAddUp(bits);
      CountFree(bits, net.base, 0);
      assert bits[0..] == bits;
      GetTakesHead(Abs());
      GetIsFresh(Abs());
    }

    static method InitializeNetwork(net: Network) returns (pool: AddressPool?, outcome: Outcome)
      requires net.prefix <= 32
      modifies net
      ensures old(!(16 <= net.prefix <= 30 && net.Readable())) ==> pool == null && outcome != Done
      ensures old(16 <= net.prefix <= 30 && net.Readable()) ==>
                && pool != null && pool.Valid() && pool.net == net
                && (pool.Abs(), outcome) == InitializeStep(old(net.Rebuilt()), net.gateway)
    {
      hide ReserveStep, From01, Is01, Pow2;
      pool, outcome := Open(net);
      if outcome != Done {
        return;
      }
      pool.Update();
      outcome := pool.Reserve(net.base, true);
      if outcome != Done {
        return;
      }
      outcome := pool.Reserve(net.base + net.Size() - 1, true);
      if outcome != Done || net.gateway.None? {
        return;
      }
      outcome := pool.Reserve(net.gateway.value, true);
    }

    method Perform(op: Op) returns (outcome: Outcome)
      requires Valid()
      modifies net, reservations, extReservations
      ensures Valid() && (Abs(), outcome) == Do(old(Abs()), op)
    {
      match op
      case GetFree => outcome := GetFreeAddress();
      case Reserve(a, ext) => outcome := Reserve(a, ext);
      case Release(a, ext) => outcome := Release(a, ext);
    }

    /** Any calls on the object, in any order. */
    method Replay(ops: seq<Op>) returns (held: seq<nat>)
      requires Valid()
      modifies net, reservations, extReservations
      ensures Valid() && Abs() == After(old(Abs()), ops)
      ensures held == Held(old(Abs()), ops) && Distinct(held) && Taken(Abs(), held)
    {
      held := [];
      var i := 0;
      while i < |ops|
        invariant 0 <= i <= |ops| && Valid()
        invariant Abs() == After(old(Abs()), ops[..i]) && held == Held(old(Abs()), ops[..i])
      {
        var outcome := Perform(ops[i]);
        held := HeldNow(held, ops[i], outcome);
        assert ops[..i + 1][..i] == ops[..i];
        i := i + 1;
      }
      assert ops[..i] == ops;
      HeldAreDistinct(old(Abs()), ops);
    }
  }

  lemma SizeLimits(prefix: nat)
    requires prefix <= 32
    ensures Pow2(32 - prefix) > Pow2(16) <==> prefix < 16
    ensures Pow2(32 - prefix) < Pow2(2) <==> prefix > 30
  {
    assert Pow2(17) > Pow2(16) && Pow2(2) > Pow2(1);
    hide Pow2;
    if prefix < 16 {
      Pow2Monotone(17, 32 - prefix);
      Pow2Monotone(2, 16);
    } else if prefix > 30 {
      Pow2Monotone(32 - prefix, 1);
      Pow2Monotone(2, 16);
    } else {
      Pow2Monotone(32 - prefix, 16);
      Pow2Monotone(2, 32 - prefix);
    }
  }
}
