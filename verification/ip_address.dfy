/** Reading IP addresses as integers, and membership in a CIDR block (lib/netutils.py). */
module IpAddresses {
  import opened Basics
  import opened Text
  import opened Bits

  datatype Version = IP4 | IP6

  function IpLen(v: Version): (n: nat) {
    if v.IP4? then 32 else 128
  }

  // ----- positional notation -----

  function Power(b: nat, e: nat): (r: nat) {
    if e == 0 then 1 else b * Power(b, e - 1)
  }

  /** The number whose digits, most significant first, are ds. */
  function Positional(ds: seq<nat>, base: nat): (r: nat) {
    if ds == [] then 0 else ds[0] * Power(base, |ds| - 1) + Positional(ds[1..], base)
  }

  lemma {:induction false} PositionalAppend(ds: seq<nat>, d: nat, base: nat)
    ensures Positional(ds + [d], base) == base * Positional(ds, base) + d
  {
    if ds == [] {
      assert ([d])[1..] == [];
      assert Positional([d], base) == d * Power(base, 0) + Positional([], base);
    } else {
      var n := |ds|;
      PositionalAppend(ds[1..], d, base);
      assert (ds + [d])[1..] == ds[1..] + [d];
      TimesBase(ds[0], Power(base, n - 1), Positional(ds[1..], base), base);
    }
  }

  lemma TimesBase(d: nat, p: nat, rest: nat, base: nat)
    ensures d * (base * p) + base * rest == base * (d * p + rest)
  {
  }

  /** n digits of k bits make a number of k * n bits. */
  lemma {:induction false} PositionalBound(ds: seq<nat>, k: nat)
    requires forall i | 0 <= i < |ds| :: ds[i] < Pow2(k)
    ensures Positional(ds, Pow2(k)) < Pow2(k * |ds|)
  {
    hide Power;
    if ds != [] {
      var init, d := ds[..|ds| - 1], ds[|ds| - 1];
      PositionalBound(init, k);
      assert ds == init + [d];
      PositionalAppend(init, d, Pow2(k));
      NextDigitBound(Positional(init, Pow2(k)), d, k, |init|);
    }
  }

  lemma NextDigitBound(a: nat, d: nat, k: nat, n: nat)
    requires a < Pow2(k * n) && d < Pow2(k)
    ensures Pow2(k) * a + d < Pow2(k * (n + 1))
  {
    hide Pow2, Shl;
    ShlBound(a, k * n, k);
    ShlIsProduct(a, k);
    assert k * (n + 1) == k * n + k;
  }

  lemma {:induction false} ShlBound(a: nat, m: nat, k: nat)
    requires a < Pow2(m)
    ensures Shl(a, k) + Pow2(k) <= Pow2(m + k)
  {
    if k > 0 {
      ShlBound(a, m, k - 1);
    }
  }

  lemma Pow2Constants()
    ensures Pow2(8) == 256 && Pow2(16) == 65536
  {
  }

  // ----- IPv4 -----

  predicate AllDigits(parts: seq<string>, base: nat) {
    forall i | 0 <= i < |parts| :: Digits(parts[i], base)
  }

  /** The integers written in the parts. */
  function Values(parts: seq<string>, base: nat): (r: seq<nat>)
    requires AllDigits(parts, base)
    ensures |r| == |parts| && forall i | 0 <= i < |parts| :: r[i] == Value(parts[i], base)
  {
    seq(|parts|, i requires 0 <= i < |parts| => Value(parts[i], base))
  }

  lemma ValuesAgree(parts: seq<string>, texts: seq<string>, base: nat)
    requires |parts| == |texts| && AllDigits(parts, base)
    requires forall i | 0 <= i < |parts| :: Digits(texts[i], base) && Value(texts[i], base) == Value(parts[i], base)
    ensures AllDigits(texts, base) && Values(texts, base) == Values(parts, base)
  {
  }

  /** Four octets put together with shifts and ors; None stands for an exception. */
  function Ip4Int(address: string): (r: Option<nat>) {
    var parts := Split(address, ".");
    if |parts| != 4 then None
    else if !AllDigits(parts, 10) then None
    else Some(Packed(Values(parts, 10)))
  }

  function Packed(octets: seq<nat>): (r: nat) {
    if octets == [] then 0 else Or(Shl(Packed(octets[..|octets| - 1]), 8), octets[|octets| - 1])
  }

  /** Octets in range are the digits of the address in base 256. */
  lemma {:induction false} PackedIsPositional(octets: seq<nat>)
    requires forall i | 0 <= i < |octets| :: octets[i] <= 255
    ensures Packed(octets) == Positional(octets, 256)
  {
    if octets != [] {
      var init, o := octets[..|octets| - 1], octets[|octets| - 1];
      PackedIsPositional(init);
      assert octets == init + [o];
      PositionalAppend(init, o, 256);
      Pow2Constants();
      OrAdds(Packed(init), o, 8);
      ShlIsProduct(Packed(init), 8);
    }
  }

  /** IP4Address._GetIPIntFromString */
  method GetIp4Int(address: string) returns (r: Option<nat>)
    ensures r == Ip4Int(address)
    ensures var parts := Split(address, ".");
            r.Some? <==> |parts| == 4 && AllDigits(parts, 10)
    ensures var parts := Split(address, ".");
            r.Some? && (forall i | 0 <= i < 4 :: Value(parts[i], 10) <= 255) ==>
              r.value == Positional(Values(parts, 10), 256) < Pow2(32)
  {
    hide Split, Digits, Value, Or, Shl, Pow2, Positional;
    var addressInt := 0;
    var parts := Split(address, ".");
    if |parts| != 4 {
      return None;
    }
    ghost var octets: seq<nat> := [];
    var k := 0;
    while k < |parts|
      invariant 0 <= k <= |parts| && |octets| == k
      invariant forall i | 0 <= i < k :: Digits(parts[i], 10) && octets[i] == Value(parts[i], 10)
      invariant addressInt == Packed(octets)
    {
      var part := ParseInt(parts[k], 10);
      if part.None? {
        return None;
      }
      addressInt := Or(Shl(addressInt, 8), part.value);
      assert (octets + [part.value])[..k] == octets;
      octets := octets + [part.value];
      k := k + 1;
    }
    assert octets == Values(parts, 10);
    r := Some(addressInt);
    if forall i | 0 <= i < 4 :: Value(parts[i], 10) <= 255 {
      Ip4Bound(octets);
    }
  }

  lemma Ip4Bound(octets: seq<nat>)
    requires |octets| == 4 && forall i | 0 <= i < 4 :: octets[i] <= 255
    ensures Packed(octets) == Positional(octets, 256) < Pow2(32)
  {
    PackedIsPositional(octets);
    Pow2Constants();
    PositionalBound(octets, 8);
  }

  // ----- IPv6 -----

  /** The groups of the address after the shorthand is expanded; None stands for the failed assertion. */
  function Groups(address: string): (r: Option<seq<string>>) {
    var halves := Split(address, "::");
    if |halves| > 2 then None
    else if |halves| == 2 then
      var left, right := Split(halves[0], ":"), Split(halves[1], ":");
      Some(left + Zeros(8 - (|left| + |right|)) + right)
    else Some(Split(address, ":"))
  }

  /** ["0"] * n, which is empty for n below one. */
  function Zeros(n: int): (r: seq<string>) {
    if n <= 0 then [] else ["0"] + Zeros(n - 1)
  }

  function OrZero(part: string): (r: string) {
    if part == "" then "0" else part
  }

  function Filled(parts: seq<string>): (r: seq<string>)
    ensures |r| == |parts| && forall i | 0 <= i < |parts| :: r[i] == OrZero(parts[i])
  {
    seq(|parts|, i requires 0 <= i < |parts| => OrZero(parts[i]))
  }

  function Ip6Int(address: string): (r: Option<nat>) {
    match Groups(address)
    case None => None
    case Some(parts) =>
      if !AllDigits(Filled(parts), 16) then None else Some(Positional(Values(Filled(parts), 16), 65536))
  }

  /** IP6Address._GetIPIntFromString */
  method GetIp6Int(address: string) returns (r: Option<nat>)
    ensures r == Ip6Int(address)
  {
    hide Split, Digits, Value, Shl, Pow2, Power, Zeros;
    var halves := Split(address, "::");
    if |halves| - 1 > 1 {
      return None;
    }
    var parts: seq<string>;
    if |halves| - 1 == 1 {
      var sep := |Split(halves[0], ":")| + |Split(halves[1], ":")|;
      parts := Split(halves[0], ":");
      parts := parts + Zeros(8 - sep);
      parts := parts + Split(halves[1], ":");
    } else {
      parts := Split(address, ":");
    }
    var addressInt := 0;
    ghost var groups: seq<nat> := [];
    var k := 0;
    while k < |parts|
      invariant 0 <= k <= |parts| && |groups| == k
      invariant forall i | 0 <= i < k :: Digits(OrZero(parts[i]), 16) && groups[i] == Value(OrZero(parts[i]), 16)
      invariant addressInt == Positional(groups, 65536)
    {
      var part := ParseInt(if parts[k] == "" then "0" else parts[k], 16);
      if part.None? {
        assert !Digits(Filled(parts)[k], 16);
        return None;
      }
      PositionalAppend(groups, part.value, 65536);
      ShlIsProduct(addressInt, 16);
      Pow2Constants();
      addressInt := Shl(addressInt, 16) + part.value;
      groups := groups + [part.value];
      k := k + 1;
    }
    assert AllDigits(Filled(parts), 16) && groups == Values(Filled(parts), 16);
    r := Some(addressInt);
  }

  // ----- the shorthand -----

  /** Hexadecimal digits of one group (RFC 4291, section 2.2, form 1). */
  predicate IsGroup(s: string) {
    Digits(s, 16) && |s| <= 4
  }

  /** Eight groups. */
  predicate IsFull(groups: seq<string>) {
    |groups| == 8 && forall i | 0 <= i < 8 :: IsGroup(groups[i])
  }

  /** Form 2: the groups from i up to j give way to a double colon. */
  function Shorthand(groups: seq<string>, i: nat, j: nat): (r: string)
    requires i <= j <= |groups|
  {
    Join(groups[..i], ":") + "::" + Join(groups[j..], ":")
  }

  lemma GroupIsPlain(s: string)
    requires IsGroup(s)
    ensures s != [] && ':' !in s
  {
  }

  lemma {:induction false} GroupBound(s: string)
    requires forall i | 0 <= i < |s| :: DigitValue(s[i]) < 16
    ensures Value(s, 16) < Pow2(4 * |s|)
  {
    if s != [] {
      GroupBound(s[..|s| - 1]);
      Pow2Sixteen(4 * |s|);
    }
  }

  lemma Pow2Sixteen(k: nat)
    requires k >= 4
    ensures Pow2(k) == 16 * Pow2(k - 4)
  {
    assert Pow2(k - 2) == 4 * Pow2(k - 4);
  }

  /** Part of a full address, joined: no double colon, and splitting gives the groups back. */
  lemma JoinedGroups(groups: seq<string>)
    requires groups != [] && forall i | 0 <= i < |groups| :: IsGroup(groups[i])
    ensures var s := Join(groups, ":"); Clear(s, "::") && Split(s, ":") == groups
  {
    forall i | 0 <= i < |groups| ensures groups[i] != [] && ':' !in groups[i] && Clear(groups[i], ":") {
      GroupIsPlain(groups[i]);
      FreeIsClear(groups[i], ':');
    }
    JoinedSingly(groups, ':');
    NoDoubleIsClear(Join(groups, ":"), ':');
    SplitJoin(groups, ":");
  }

  /** What one side of the double colon is split into. */
  function Side(groups: seq<string>): (r: seq<string>) {
    if groups == [] then [""] else groups
  }

  lemma SideSplits(groups: seq<string>)
    requires forall i | 0 <= i < |groups| :: IsGroup(groups[i])
    ensures var s := Join(groups, ":"); Clear(s, "::") && Split(s, ":") == Side(groups)
  {
    if groups == [] {
      NoDoubleIsClear("", ':');
      FreeIsClear("", ':');
      ClearHasNone("", ":");
    } else {
      JoinedGroups(groups);
    }
  }

  lemma {:induction false} ZerosAre(n: nat)
    ensures |Zeros(n)| == n && forall k | 0 <= k < n :: Zeros(n)[k] == "0"
  {
    if n > 0 {
      ZerosAre(n - 1);
    }
  }

  lemma FullGroups(groups: seq<string>)
    requires IsFull(groups)
    ensures Groups(Join(groups, ":")) == Some(groups)
  {
    JoinedGroups(groups);
    ClearHasNone(Join(groups, ":"), "::");
  }

  /** The expansion has eight parts again: those of the full form with an empty or "0" text for every zero. */
  lemma ShorthandGroups(groups: seq<string>, i: nat, j: nat)
    requires IsFull(groups) && i < j <= 8
    ensures Groups(Shorthand(groups, i, j)).Some?
    ensures var parts := Groups(Shorthand(groups, i, j)).value;
            && |parts| == 8
            && forall k | 0 <= k < 8 :: if i <= k < j then OrZero(parts[k]) == "0" else parts[k] == groups[k]
  {
    hide Split, Join, Find, Digits, Zeros;
    var left, right := groups[..i], groups[j..];
    var a, b := Join(left, ":"), Join(right, ":");
    SideSplits(left);
    SideSplits(right);
    SplitAfter(a, "::", b);
    ClearHasNone(b, "::");
    assert Split(Shorthand(groups, i, j), "::") == [a, b];
    var n := 8 - (|Side(left)| + |Side(right)|);
    ShorthandLength(i, j);
    ZerosAre(n);
    var parts := Groups(Shorthand(groups, i, j)).value;
    assert parts == Side(left) + Zeros(n) + Side(right);
  }

  /** The two sides never take more than eight places. */
  lemma ShorthandLength(i: nat, j: nat)
    requires i < j <= 8
    ensures (if i == 0 then 1 else i) + (if j == 8 then 1 else 8 - j) <= 8
  {
  }

  /** Every way of abbreviating zero groups reads as the same 128-bit integer. */
  lemma ShorthandMeansFull(groups: seq<string>, i: nat, j: nat)
    requires IsFull(groups) && i < j <= 8
    requires forall k | i <= k < j :: Value(groups[k], 16) == 0
    ensures Ip6Int(Shorthand(groups, i, j)) == Ip6Int(Join(groups, ":"))
  {
    FullGroups(groups);
    ShorthandGroups(groups, i, j);
    var parts := Groups(Shorthand(groups, i, j)).value;
    ZeroText();
    ValuesAgree(Filled(groups), Filled(parts), 16);
  }

  lemma ZeroText()
    ensures Digits("0", 16) && Value("0", 16) == 0
  {
  }

  /** The full form is the base-65536 number of its groups. */
  lemma FullMeans(groups: seq<string>)
    requires IsFull(groups)
    ensures AllDigits(groups, 16) && Positional(Values(groups, 16), 65536) < Pow2(128)
    ensures Ip6Int(Join(groups, ":")) == Some(Positional(Values(groups, 16), 65536))
  {
    FullGroups(groups);
    FullIsPlain(groups);
    hide Join, Groups, Positional, Pow2, Value, Digits, IsGroup;
    var values := Values(groups, 16);
    Pow2Constants();
    forall k | 0 <= k < 8 ensures values[k] < Pow2(16) {
      GroupFits(groups[k]);
    }
    PositionalBound(values, 16);
  }

  lemma FullIsPlain(groups: seq<string>)
    requires IsFull(groups)
    ensures AllDigits(groups, 16) && Filled(groups) == groups
  {
  }

  lemma GroupFits(s: string)
    requires IsGroup(s)
    ensures Value(s, 16) < Pow2(16)
  {
    hide Value, Pow2;
    GroupBound(s);
    Pow2Monotone(4 * |s|, 16);
  }

  // ----- CIDR blocks -----

  /** The mask computation at the end of IPAddress.InNetwork, for addresses of n bits. */
  predicate InBlock(n: nat, target: nat, prefix: nat, address: nat) {
    var ones := Pow2(n) - 1;
    var netmask := Xor(ones, Shr(ones, prefix));
    var hostmask := Xor(netmask, ones);
    var network := And(target, netmask);
    var broadcast := Or(target, hostmask);
    network <= address <= broadcast
  }

  /** Section 3.1 of RFC 4632: an address matches a block exactly when their first p bits are the same. */
  lemma InBlockIsPrefixEquality(n: nat, target: nat, prefix: nat, address: nat)
    requires prefix <= n && target < Pow2(n) && address < Pow2(n)
    ensures InBlock(n, target, prefix, address) <==> Shr(address, n - prefix) == Shr(target, n - prefix)
  {
    hide Xor, And, Or, Shl, Shr;
    var h := n - prefix;
    var ones := Pow2(n) - 1;
    ShrOnes(n, prefix);
    Pow2Monotone(h, n);
    XorCommutes(ones, Pow2(h) - 1);
    XorOnes(Pow2(h) - 1, n);
    XorOnes(Pow2(n) - Pow2(h), n);
    AndMask(target, n, h);
    OrOnes(target, h);
    PrefixInterval(address, Shr(target, h), h);
  }

  function IpInt(v: Version, address: string): (r: Option<nat>) {
    if v.IP4? then Ip4Int(address) else Ip6Int(address)
  }

  /** int(text) with its optional sign. */
  function ReadInt(s: string): (r: Option<int>) {
    var sign: int := if s != [] && s[0] == '-' then -1 else 1;
    var digits := if s != [] && s[0] in "+-" then s[1..] else s;
    if Digits(digits, 10) then Some(sign * Value(digits, 10)) else None
  }

  /** IPAddress.InNetwork; None stands for a failed assertion or a ValueError of the address parser. */
  function InNetwork(v: Version, cidr: string, address: string): (r: Option<bool>) {
    match IpInt(v, address)
    case None => None
    case Some(addressInt) =>
      var subnet := Split(cidr, "/");
      if |subnet| != 2 then None
      else
        match ReadInt(subnet[1])
        case None => Some(false)
        case Some(prefix) =>
          if !(0 <= prefix <= IpLen(v)) then None
          else
            match IpInt(v, subnet[0])
            case None => None
            case Some(targetInt) => Some(InBlock(IpLen(v), targetInt, prefix, addressInt))
  }

  /** For addresses that fit their version, the answer on text is equality of the first p bits. */
  lemma InNetworkMatchesPrefix(v: Version, network: string, prefixText: string, address: string)
    requires '/' !in network && '/' !in prefixText
    requires IpInt(v, network).Some? && IpInt(v, network).value < Pow2(IpLen(v))
    requires IpInt(v, address).Some? && IpInt(v, address).value < Pow2(IpLen(v))
    requires ReadInt(prefixText).Some? && 0 <= ReadInt(prefixText).value <= IpLen(v)
    ensures InNetwork(v, network + "/" + prefixText, address) ==
            Some(var rest := IpLen(v) - ReadInt(prefixText).value;
                 IpInt(v, address).value / Pow2(rest) == IpInt(v, network).value / Pow2(rest))
  {
    FreeIsClear(network, '/');
    FreeIsClear(prefixText, '/');
    SplitAfter(network, "/", prefixText);
    ClearHasNone(prefixText, "/");
    var n, p := IpLen(v), ReadInt(prefixText).value;
    var target, addr := IpInt(v, network).value, IpInt(v, address).value;
    InBlockIsPrefixEquality(n, target, p, addr);
    ShrIsQuotient(addr, n - p);
    ShrIsQuotient(target, n - p);
  }
}
