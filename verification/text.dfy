/** Splitting, joining and reading numbers, as Python's str.split, str.join and int do it. */
module Text {
  import opened Basics

  /** str.find: where the first occurrence of sep begins. */
  function Find(s: string, sep: string): (r: Option<nat>)
    requires sep != []
    ensures r.Some? ==> r.value + |sep| <= |s| && s[r.value..r.value + |sep|] == sep
  {
    if |s| < |sep| then None
    else if s[..|sep|] == sep then Some(0)
    else
      match Find(s[1..], sep)
      case None => None
      case Some(i) => assert s[1..][i..i + |sep|] == s[i + 1..i + 1 + |sep|]; Some(i + 1)
  }

  /** str.split(sep) */
  function Split(s: string, sep: string): (r: seq<string>)
    requires sep != []
    ensures r != []
  {
    match Find(s, sep)
    case None => [s]
    case Some(i) => [s[..i]] + Split(s[i + |sep|..], sep)
  }

  /** sep.join(parts) */
  function Join(parts: seq<string>, sep: string): (r: string) {
    if parts == [] then "" else if |parts| == 1 then parts[0] else parts[0] + sep + Join(parts[1..], sep)
  }

  /** Nothing in a, nor across its end, looks like the separator that follows it. */
  predicate Clear(a: string, sep: string)
    requires sep != []
  {
    Find(a + sep[..|sep| - 1], sep).None?
  }

  /** The separator behind a clear text is the first one. */
  lemma {:induction false} FindAfter(a: string, sep: string, b: string)
    requires sep != [] && Clear(a, sep)
    ensures Find(a + sep + b, sep) == Some(|a|)
  {
    var s, t := a + sep + b, a + sep[..|sep| - 1];
    if a == [] {
      assert s[..|sep|] == sep;
    } else {
      assert s[..|sep|] == t[..|sep|];
      assert t[1..] == a[1..] + sep[..|sep| - 1];
      assert s[1..] == a[1..] + sep + b;
      FindAfter(a[1..], sep, b);
    }
  }

  lemma SplitAfter(a: string, sep: string, b: string)
    requires sep != [] && Clear(a, sep)
    ensures Split(a + sep + b, sep) == [a] + Split(b, sep)
  {
    FindAfter(a, sep, b);
    var s := a + sep + b;
    assert s[..|a|] == a && s[|a| + |sep|..] == b;
  }

  /** Joining and splitting are inverse on clear parts, of which the last may be followed by nothing. */
  lemma {:induction false} SplitJoin(parts: seq<string>, sep: string)
    requires sep != [] && parts != []
    requires forall i | 0 <= i < |parts| :: Clear(parts[i], sep)
    ensures Split(Join(parts, sep), sep) == parts
  {
    if |parts| == 1 {
      ClearHasNone(parts[0], sep);
    } else {
      SplitAfter(parts[0], sep, Join(parts[1..], sep));
      SplitJoin(parts[1..], sep);
    }
  }

  lemma {:induction false} ClearHasNone(a: string, sep: string)
    requires sep != [] && Clear(a, sep)
    ensures Find(a, sep).None? && Split(a, sep) == [a]
  {
    var t := a + sep[..|sep| - 1];
    if |a| >= |sep| {
      assert t[..|sep|] == a[..|sep|];
      assert t[1..] == a[1..] + sep[..|sep| - 1];
      ClearHasNone(a[1..], sep);
    }
  }

  /** A text without the character is clear of the one-character separator. */
  lemma {:induction false} FreeIsClear(a: string, c: char)
    requires c !in a
    ensures Clear(a, [c])
  {
    assert a + [c][..0] == a;
    FreeHasNone(a, c);
  }

  lemma {:induction false} FreeHasNone(a: string, c: char)
    requires c !in a
    ensures Find(a, [c]).None?
  {
    if a != [] {
      assert a[..1] == [a[0]];
      FreeHasNone(a[1..], c);
    }
  }

  /** A text that neither ends in c nor holds it twice in a row is clear of the doubled separator. */
  lemma {:induction false} NoDoubleIsClear(a: string, c: char)
    requires a != [] ==> a[|a| - 1] != c
    requires forall i | 0 <= i < |a| - 1 :: !(a[i] == c && a[i + 1] == c)
    ensures Clear(a, [c, c])
  {
    var sep := [c, c];
    var t := a + sep[..|sep| - 1];
    if |a| > 0 {
      assert t[..2][0] == a[0] && (|a| > 1 ==> t[..2][1] == a[1]);
      NoDoubleIsClear(a[1..], c);
      assert t[1..] == a[1..] + sep[..|sep| - 1];
    }
  }

  // ----- joined parts, seen character by character -----

  /** What separates non-empty parts that are free of c never ends the text nor stands twice. */
  lemma {:induction false} JoinedSingly(parts: seq<string>, c: char)
    requires parts != [] && forall i | 0 <= i < |parts| :: parts[i] != [] && c !in parts[i]
    ensures var s := Join(parts, [c]);
            && s != [] && s[0] != c && s[|s| - 1] != c
            && forall i | 0 <= i < |s| - 1 :: !(s[i] == c && s[i + 1] == c)
  {
    if |parts| > 1 {
      JoinedSingly(parts[1..], c);
      var p, rest := parts[0], Join(parts[1..], [c]);
      var s := Join(parts, [c]);
      assert s == p + [c] + rest;
      forall i | 0 <= i < |s| - 1 ensures !(s[i] == c && s[i + 1] == c) {
        if i > |p| {
          assert s[i] == rest[i - |p| - 1] && s[i + 1] == rest[i - |p|];
        } else if i == |p| {
          assert s[i + 1] == rest[0];
        } else {
          assert s[i] == p[i];
        }
      }
      assert s[|s| - 1] == rest[|rest| - 1];
    }
  }

  // ----- int(text, base) for plain digits -----

  /** The value of a digit of some base up to 16; 16 for any other character. */
  function DigitValue(c: char): (r: nat)
    ensures r <= 16
  {
    if '0' <= c <= '9' then (c - '0') as nat
    else if 'a' <= c <= 'f' then (c - 'a') as nat + 10
    else if 'A' <= c <= 'F' then (c - 'A') as nat + 10
    else 16
  }

  predicate Digits(s: string, base: nat) {
    s != [] && forall i | 0 <= i < |s| :: DigitValue(s[i]) < base
  }

  function Value(s: string, base: nat): (r: nat) {
    if s == [] then 0 else base * Value(s[..|s| - 1], base) + DigitValue(s[|s| - 1])
  }

  function Digit(d: nat, upper: bool): (c: char)
    requires d < 16
  {
    if d < 10 then '0' + d as char else (if upper then 'A' else 'a') + (d - 10) as char
  }

  /** The usual way to write a number, the last digit last and without leading zeros. */
  function Numeral(n: nat, base: nat, upper: bool): (s: string)
    requires 2 <= base <= 16
    ensures s != []
  {
    if n < base then [Digit(n, upper)] else Numeral(n / base, base, upper) + [Digit(n % base, upper)]
  }

  lemma DigitIs(d: nat, upper: bool)
    requires d < 16
    ensures DigitValue(Digit(d, upper)) == d
  {
  }

  lemma OneDigit(c: char, base: nat)
    requires DigitValue(c) < base
    ensures Digits([c], base) && Value([c], base) == DigitValue(c)
  {
    hide DigitValue;
    assert [c][..0] == [] && Value([], base) == 0;
  }

  lemma Quotient(n: nat, base: nat)
    requires 2 <= base <= n
    ensures n / base < n && n % base < base && base * (n / base) + n % base == n
  {
  }

  /** Every number is what its numeral is read as, in small letters and in capitals. */
  lemma {:induction false} NumeralReads(n: nat, base: nat, upper: bool)
    requires 2 <= base <= 16
    ensures Digits(Numeral(n, base, upper), base) && Value(Numeral(n, base, upper), base) == n
  {
    hide Value, Digits, DigitValue, Digit;
    if n < base {
      DigitIs(n, upper);
      OneDigit(Digit(n, upper), base);
    } else {
      Quotient(n, base);
      NumeralReads(n / base, base, upper);
      DigitIs(n % base, upper);
      NextDigit(Numeral(n / base, base, upper), Digit(n % base, upper), base);
    }
  }

  lemma NextDigit(s: string, c: char, base: nat)
    requires Digits(s, base) && DigitValue(c) < base
    ensures Digits(s + [c], base) && Value(s + [c], base) == base * Value(s, base) + DigitValue(c)
  {
    hide DigitValue;
    assert (s + [c])[..|s|] == s;
  }

  /** None stands for the ValueError. */
  function ParseInt(s: string, base: nat): (r: Option<nat>) {
    if Digits(s, base) then Some(Value(s, base)) else None
  }
}
