/** Splitting a text whose separators can be escaped (lib/utils/text.py). */
module Escaping {
  import opened Basics
  import opened Text

  function TrailingBackslashes(s: string): (n: nat) {
    if s == [] || s[|s| - 1] != '\\' then 0 else 1 + TrailingBackslashes(s[..|s| - 1])
  }

  /** Pieces that end in an odd number of backslashes are joined with the next one. */
  function Merged(pieces: seq<string>, sep: string): (r: seq<string>)
    decreases |pieces|
  {
    if pieces == [] then []
    else if TrailingBackslashes(pieces[0]) % 2 == 1 && |pieces| > 1 then
      Merged([pieces[0] + sep + pieces[1]] + pieces[2..], sep)
    else [pieces[0]] + Merged(pieces[1..], sep)
  }

  /** A backslash gives way to the character behind it, unless that is the end of a line. */
  function Unescaped(s: string): (r: string)
    decreases |s|
  {
    if s == [] then []
    else if s[0] == '\\' && |s| > 1 then Meaning(s[1]) + Unescaped(s[2..])
    else [s[0]] + Unescaped(s[1..])
  }

  /** What a backslash and this character stand for. */
  function Meaning(x: char): (r: string) {
    if x == '\n' then ['\\', '\n'] else [x]
  }

  function UnescapedAll(parts: seq<string>): (r: seq<string>)
    ensures |r| == |parts| && forall i | 0 <= i < |r| :: r[i] == Unescaped(parts[i])
  {
    seq(|parts|, i requires 0 <= i < |parts| => Unescaped(parts[i]))
  }

  method UnescapeAndSplit(text: string, sep: string) returns (r: seq<string>)
    requires sep != []
    ensures r == UnescapedAll(Merged(Split(text, sep), sep))
    ensures '\\' !in text ==> r == Split(text, sep)
  {
    hide Split;
    var slist := Split(text, sep);
    var rlist: seq<string> := [];
    while slist != []
      invariant rlist + Merged(slist, sep) == Merged(Split(text, sep), sep)
      decreases |slist|
    {
      var e1 := slist[0];
      ghost var was := slist;
      slist := slist[1..];
      if e1 != [] && e1[|e1| - 1] == '\\' {
        var numB := TrailingBackslashes(e1);
        if numB % 2 == 1 && slist != [] {
          var e2 := slist[0];
          slist := [e1 + sep + e2] + slist[1..];
          assert was[2..] == was[1..][1..];
          continue;
        }
      }
      assert Merged(was, sep) == [e1] + Merged(slist, sep);
      assert rlist + ([e1] + Merged(slist, sep)) == rlist + [e1] + Merged(slist, sep);
      rlist := rlist + [e1];
    }
    r := UnescapedAll(rlist);
    assert rlist + [] == rlist;
    if '\\' !in text {
      SplitKeepsFree(text, sep, '\\');
      MergedPlain(Split(text, sep), sep);
      UnescapedPlain(Split(text, sep));
    }
  }

  lemma {:induction false} SplitKeepsFree(s: string, sep: string, c: char)
    requires sep != [] && c !in s
    ensures forall i | 0 <= i < |Split(s, sep)| :: c !in Split(s, sep)[i]
    decreases |s|
  {
    match Find(s, sep)
    case None =>
    case Some(i) => SplitKeepsFree(s[i + |sep|..], sep, c);
  }

  lemma {:induction false} MergedPlain(pieces: seq<string>, sep: string)
    requires forall i | 0 <= i < |pieces| :: '\\' !in pieces[i]
    ensures Merged(pieces, sep) == pieces
  {
    if pieces != [] {
      MergedPlain(pieces[1..], sep);
    }
  }

  lemma {:induction false} UnescapedIsPlain(s: string)
    requires '\\' !in s
    ensures Unescaped(s) == s
  {
    if s != [] {
      UnescapedIsPlain(s[1..]);
    }
  }

  lemma UnescapedPlain(parts: seq<string>)
    requires forall i | 0 <= i < |parts| :: '\\' !in parts[i]
    ensures UnescapedAll(parts) == parts
  {
    forall i | 0 <= i < |parts| ensures Unescaped(parts[i]) == parts[i] {
      UnescapedIsPlain(parts[i]);
    }
  }

  // ----- reading in one pass -----

  lemma SplitCons(a: char, y: string, c: char)
    ensures var r := Split(y, [c]);
            Split([a] + y, [c]) == if a == c then [""] + r else [[a] + r[0]] + r[1..]
  {
    var s := [a] + y;
    assert s[..1] == [a] && s[1..] == y;
    match Find(y, [c])
    case None =>
    case Some(i) => assert s[..i + 1] == [a] + y[..i] && s[i + 2..] == y[i + 1..];
  }

  /** The elements with x put in front of the first one. */
  function Added(x: string, r: seq<string>): (r': seq<string>)
    requires r != []
    ensures r' != []
  {
    [x + r[0]] + r[1..]
  }

  lemma AddedTwice(x: string, y: string, r: seq<string>)
    requires r != []
    ensures Added(x + y, r) == Added(x, Added(y, r)) && Added("", r) == r
  {
    assert x + y + r[0] == x + (y + r[0]) && "" + r[0] == r[0];
  }

  /** What a reader makes of the text that goes from left to right once: a backslash takes the next
      character with it, a separator by itself ends the element. */
  function Read(y: string, c: char): (r: seq<string>)
    ensures r != []
    decreases |y|
  {
    if y == [] then [""]
    else if y[0] == c then [""] + Read(y[1..], c)
    else if y[0] == '\\' && |y| > 1 then Added(Meaning(y[1]), Read(y[2..], c))
    else Added([y[0]], Read(y[1..], c))
  }

  /** Every backslash has the character it belongs to behind it. */
  predicate Closed(x: string)
    decreases |x|
  {
    x == [] || if x[0] == '\\' then |x| > 1 && Closed(x[2..]) else Closed(x[1..])
  }

  /** The length of what stands first in the text: a pair, or a character by itself. */
  function First(x: string): (n: nat)
    requires x != []
  {
    if x[0] == '\\' then 2 else 1
  }

  lemma UnescapedFirst(x: string)
    requires x != [] && First(x) <= |x|
    ensures Unescaped(x) == Unescaped(x[..First(x)]) + Unescaped(x[First(x)..])
  {
    UnescapedUnit(x[..First(x)]);
  }

  lemma {:induction false} ClosedConcat(x: string, z: string)
    requires Closed(x)
    ensures Unescaped(x + z) == Unescaped(x) + Unescaped(z)
    decreases |x|
  {
    hide Unescaped;
    if x == [] {
      UnescapedNothing();
      assert x + z == z;
    } else {
      var n := First(x);
      var rest := x[n..];
      ClosedConcat(rest, z);
      assert (x + z)[n..] == rest + z && (x + z)[..n] == x[..n];
      UnescapedFirst(x);
      UnescapedFirst(x + z);
    }
  }

  lemma {:induction false} ClosedBoth(x: string, z: string)
    requires Closed(x) && Closed(z)
    ensures Closed(x + z)
    decreases |x|
  {
    if x == [] {
      assert x + z == z;
    } else {
      var n := First(x);
      ClosedBoth(x[n..], z);
      assert (x + z)[n..] == x[n..] + z;
    }
  }

  lemma {:induction false} TrailingConcat(a: string, b: string)
    ensures TrailingBackslashes(b) <= |b|
    ensures TrailingBackslashes(a + b) ==
            TrailingBackslashes(b) + if TrailingBackslashes(b) == |b| then TrailingBackslashes(a) else 0
    decreases |b|
  {
    if b == [] {
      assert a + b == a;
    } else if b[|b| - 1] == '\\' {
      TrailingConcat(a, b[..|b| - 1]);
      assert (a + b)[..|a + b| - 1] == a + b[..|b| - 1];
    }
  }

  lemma {:induction false} ClosedIsEven(x: string)
    requires Closed(x)
    ensures TrailingBackslashes(x) % 2 == 0
    decreases |x|
  {
    if x != [] {
      var n := if x[0] == '\\' then 2 else 1;
      ClosedIsEven(x[n..]);
      assert x == x[..n] + x[n..];
      TrailingConcat(x[..n], x[n..]);
      OneTrailing(x[..n]);
    }
  }

  lemma OneTrailing(u: string)
    requires (|u| == 1 && u[0] != '\\') || (|u| == 2 && u[0] == '\\')
    ensures TrailingBackslashes(u) % 2 == 0
  {
    if |u| == 2 {
      assert u[..1] == ['\\'] && ['\\'][..0] == [];
      assert TrailingBackslashes(['\\']) == 1;
    }
  }

  /** The pieces of y, the first of them behind x. */
  function Behind(x: string, y: string, c: char): (r: seq<string>)
    ensures r != []
  {
    Added(x, Split(y, [c]))
  }

  lemma BehindCons(x: string, a: char, y: string, c: char)
    requires a != c
    ensures Behind(x, [a] + y, c) == Behind(x + [a], y, c)
  {
    SplitCons(a, y, c);
    AddedTwice(x, [a], Split(y, [c]));
  }

  lemma MergedJoins(p: string, rest: seq<string>, sep: string)
    requires TrailingBackslashes(p) % 2 == 1 && rest != []
    ensures Merged([p] + rest, sep) == Merged([p + sep + rest[0]] + rest[1..], sep)
  {
    hide TrailingBackslashes;
    assert ([p] + rest)[2..] == rest[1..];
  }

  lemma MergedGoesOn(p: string, rest: seq<string>, sep: string)
    requires TrailingBackslashes(p) % 2 == 0 || rest == []
    ensures Merged([p] + rest, sep) == [p] + Merged(rest, sep)
  {
  }

  /** A separator that is escaped does not end the element. */
  lemma MergedOver(x: string, y: string, c: char)
    requires c != '\\' && TrailingBackslashes(x) % 2 == 0
    ensures Merged(Behind(x, ['\\', c] + y, c), [c]) == Merged(Behind(x + ['\\', c], y, c), [c])
  {
    hide Split, Merged, TrailingBackslashes;
    var b := ['\\'];
    assert ['\\', c] + y == b + ([c] + y);
    SplitCons('\\', [c] + y, c);
    SplitCons(c, y, c);
    var r := Split(y, [c]);
    assert b + "" == b && ([""] + r)[1..] == r;
    assert Behind(x, ['\\', c] + y, c) == [x + b] + r;
    OneBackslash(x);
    MergedJoins(x + b, r, [c]);
    assert x + b + [c] == x + ['\\', c];
  }

  lemma OneBackslash(x: string)
    ensures TrailingBackslashes(x + ['\\']) == TrailingBackslashes(x) + 1
  {
  }

  lemma UnescapedAdded(x: string, parts: seq<string>)
    ensures UnescapedAll([x] + parts) == [Unescaped(x)] + UnescapedAll(parts)
  {
  }

  lemma NothingMerges(x: string, sep: string)
    ensures Merged([x], sep) == [x]
  {
    assert Merged([], sep) == [];
    MergedGoesOn(x, [], sep);
  }

  lemma SplitNothing(c: char)
    ensures Split("", [c]) == [""]
  {
  }

  lemma BehindNothing(x: string, y: string, c: char)
    ensures Behind("", y, c) == Split(y, [c]) && Behind(x, "", c) == [x]
  {
    hide Split;
    SplitNothing(c);
    AddedTwice("", "", Split(y, [c]));
    assert x + "" == x;
  }

  /** Pairs and plain characters move behind the part that has been read. */
  lemma ReadUnit(x: string, unit: string, y: string, c: char)
    requires c != '\\' && Closed(x) && Closed(unit)
    requires unit != [] && unit[0] != c && |unit| == (if unit[0] == '\\' then 2 else 1)
    ensures Closed(x + unit) && Unescaped(x + unit) == Unescaped(x) + Unescaped(unit)
    ensures Merged(Behind(x, unit + y, c), [c]) == Merged(Behind(x + unit, y, c), [c])
  {
    hide Merged, Behind, Unescaped, TrailingBackslashes;
    ClosedConcat(x, unit);
    ClosedBoth(x, unit);
    if |unit| == 1 {
      assert unit == [unit[0]];
      BehindCons(x, unit[0], y, c);
    } else if unit[1] == c {
      assert unit == ['\\', c];
      ClosedIsEven(x);
      MergedOver(x, y, c);
    } else {
      assert unit + y == ['\\'] + ([unit[1]] + y) && x + ['\\'] + [unit[1]] == x + unit;
      BehindCons(x, '\\', [unit[1]] + y, c);
      BehindCons(x + ['\\'], unit[1], y, c);
    }
  }

  /** Splitting, merging and unescaping is reading once from left to right. */
  lemma {:induction false} ReadBehind(x: string, y: string, c: char)
    requires c != '\\' && Closed(x)
    ensures UnescapedAll(Merged(Behind(x, y, c), [c])) == Added(Unescaped(x), Read(y, c))
    decreases |y|
  {
    hide Merged, Behind, Unescaped, TrailingBackslashes, UnescapedAll;
    if y == [] {
      BehindNothing(x, y, c);
      NothingMerges(x, [c]);
      UnescapedAdded(x, []);
      assert [x] + [] == [x] && Unescaped(x) + "" == Unescaped(x);
    } else if y[0] == c {
      ReadEnd(x, y[1..], c);
      ReadBehind("", y[1..], c);
      UnescapedNothing();
      assert y == [c] + y[1..] && Unescaped(x) + "" == Unescaped(x);
      AddedTwice("", "", Read(y[1..], c));
    } else if y == ['\\'] {
      ReadLone(x, c);
    } else {
      var n := if y[0] == '\\' then 2 else 1;
      var unit, rest := y[..n], y[n..];
      assert y == unit + rest;
      UnescapedNothing();
      UnescapedUnit(unit);
      ReadUnit(x, unit, rest, c);
      ReadsUnit(unit, rest, c);
      ReadBehind(x + unit, rest, c);
      AddedTwice(Unescaped(x), Unescaped(unit), Read(rest, c));
    }
  }

  lemma UnescapedNothing()
    ensures Unescaped("") == "" && Closed("")
  {
  }

  lemma UnescapedUnit(unit: string)
    requires |unit| == 1 || (|unit| == 2 && unit[0] == '\\')
    ensures Unescaped(unit) == if |unit| == 2 then Meaning(unit[1]) else unit
    ensures Closed(unit) <==> unit != ['\\']
  {
    if |unit| == 2 {
      assert unit[2..] == [];
    } else {
      assert unit[1..] == [];
    }
  }

  lemma ReadEnd(x: string, y: string, c: char)
    requires c != '\\' && Closed(x)
    ensures UnescapedAll(Merged(Behind(x, [c] + y, c), [c])) ==
            [Unescaped(x)] + UnescapedAll(Merged(Behind("", y, c), [c]))
  {
    hide Merged, Unescaped, TrailingBackslashes, UnescapedAll, Split;
    SplitCons(c, y, c);
    var r := Split(y, [c]);
    BehindNothing("", y, c);
    assert x + "" == x && Behind(x, [c] + y, c) == [x] + r;
    ClosedIsEven(x);
    MergedGoesOn(x, r, [c]);
    UnescapedAdded(x, Merged(r, [c]));
  }

  /** A backslash that ends the text stands for itself. */
  lemma ReadLone(x: string, c: char)
    requires c != '\\' && Closed(x)
    ensures UnescapedAll(Merged(Behind(x, ['\\'], c), [c])) == Added(Unescaped(x), Read(['\\'], c))
  {
    hide Merged, Behind, TrailingBackslashes;
    assert ['\\'] + [] == ['\\'];
    BehindCons(x, '\\', [], c);
    BehindNothing(x + ['\\'], "", c);
    NothingMerges(x + ['\\'], [c]);
    ClosedConcat(x, ['\\']);
    assert Unescaped(['\\']) == ['\\'] && Read("", c) == [""] && ['\\'][1..] == "";
    assert Read(['\\'], c) == [['\\'] + ""] + [];
  }

  lemma UnescapeAndSplitReads(y: string, c: char)
    requires c != '\\'
    ensures UnescapedAll(Merged(Split(y, [c]), [c])) == Read(y, c)
  {
    hide Merged, Split, Read, UnescapedAll;
    BehindNothing("", y, c);
    UnescapedNothing();
    ReadBehind("", y, c);
    AddedTwice("", "", Read(y, c));
  }

  // ----- reading neither loses nor invents separators -----

  function Count(s: string, c: char): (n: nat) {
    if s == [] then 0 else (if s[0] == c then 1 else 0) + Count(s[1..], c)
  }

  function CountAll(parts: seq<string>, c: char): (n: nat) {
    if parts == [] then 0 else Count(parts[0], c) + CountAll(parts[1..], c)
  }

  lemma {:induction false} CountConcat(a: string, b: string, c: char)
    ensures Count(a + b, c) == Count(a, c) + Count(b, c)
  {
    if a == [] {
      assert a + b == b;
    } else {
      CountConcat(a[1..], b, c);
      assert (a + b)[1..] == a[1..] + b;
    }
  }

  lemma CountUnit(unit: string, c: char)
    requires c != '\\' && |unit| == 2 && unit[0] == '\\'
    ensures Count(Meaning(unit[1]), c) == Count(unit, c)
  {
    assert unit[1..] == [unit[1]] && unit == ['\\', unit[1]];
  }

  /** Each separator of the text ends an element or stands in one. */
  lemma {:induction false} ReadCounts(y: string, c: char)
    requires c != '\\'
    ensures CountAll(Read(y, c), c) + |Read(y, c)| == Count(y, c) + 1
    decreases |y|
  {
    hide Unescaped;
    if y == [] {
      assert [""][1..] == [];
    } else if y[0] == c {
      ReadCounts(y[1..], c);
      var r := Read(y[1..], c);
      assert ([""] + r)[1..] == r;
    } else {
      var n := if y[0] == '\\' && |y| > 1 then 2 else 1;
      var unit := if n == 2 then Meaning(y[1]) else [y[0]];
      ReadCounts(y[n..], c);
      var r := Read(y[n..], c);
      CountConcat(unit, r[0], c);
      CountConcat(y[..n], y[n..], c);
      assert y == y[..n] + y[n..] && ([unit + r[0]] + r[1..])[1..] == r[1..];
      if n == 2 {
        CountUnit(y[..2], c);
      } else {
        assert y[..1] == [y[0]];
      }
    }
  }

  lemma {:induction false} JoinCounts(es: seq<string>, c: char)
    requires es != []
    ensures Count(Join(es, [c]), c) + 1 == CountAll(es, c) + |es|
  {
    if |es| == 1 {
      assert es[1..] == [];
    } else {
      JoinCounts(es[1..], c);
      CountConcat(es[0] + [c], Join(es[1..], [c]), c);
      CountConcat(es[0], [c], c);
      assert [c][1..] == [];
    }
  }

  // ----- utils.EscapeAndJoin -----

  /** Which characters outside ASCII are digits, white space and word characters. */
  datatype Classes = Classes(digit: char -> bool, space: char -> bool, word: char -> bool)

  predicate Ascii(x: char) {
    x as int < 128
  }

  predicate IsDigit(u: Classes, x: char) {
    if Ascii(x) then '0' <= x <= '9' else u.digit(x)
  }

  predicate IsSpace(u: Classes, x: char) {
    if Ascii(x) then 9 <= x as int <= 13 || 28 <= x as int <= 32 else u.space(x)
  }

  predicate IsWord(u: Classes, x: char) {
    if Ascii(x) then LetterOrDigit(x) || x == '_' else u.word(x)
  }

  predicate LetterOrDigit(c: char) {
    '0' <= c <= '9' || 'a' <= c <= 'z' || 'A' <= c <= 'Z'
  }

  /** A backslash and c is a regular expression, and two backslashes and c a replacement. */
  predicate Usable(c: char) {
    c != '\\' && (LetterOrDigit(c) ==> c in "0abfnrtvdDsSwWABZ")
  }

  /** That expression matches places of a text and no characters. */
  predicate ZeroWidth(c: char) {
    c in "ABZb"
  }

  /** Otherwise: the characters it matches. */
  predicate Matches(u: Classes, c: char, x: char) {
    match c
    case 'd' => IsDigit(u, x)
    case 'D' => !IsDigit(u, x)
    case 's' => IsSpace(u, x)
    case 'S' => !IsSpace(u, x)
    case 'w' => IsWord(u, x)
    case 'W' => !IsWord(u, x)
    case '0' => x as int == 0
    case 'a' => x as int == 7
    case 't' => x as int == 9
    case 'n' => x as int == 10
    case 'v' => x as int == 11
    case 'f' => x as int == 12
    case 'r' => x as int == 13
    case _ => x == c
  }

  predicate Boundary(u: Classes, t: string, p: nat)
    requires p <= |t|
  {
    (p > 0 && IsWord(u, t[p - 1])) != (p < |t| && IsWord(u, t[p]))
  }

  predicate Hits(u: Classes, c: char, t: string, p: nat)
    requires p <= |t|
  {
    match c
    case 'A' => p == 0
    case 'Z' => p == |t|
    case 'b' => Boundary(u, t, p)
    case 'B' => t != [] && !Boundary(u, t, p)
    case _ => false
  }

  /** The first pass: every backslash twice. */
  function Doubled(s: string): (r: string) {
    if s == [] then [] else (if s[0] == '\\' then ['\\', '\\'] else [s[0]]) + Doubled(s[1..])
  }

  /** The second pass, for an expression that matches characters. */
  function Replaced(u: Classes, c: char, t: string): (r: string) {
    if t == [] then [] else (if Matches(u, c, t[0]) then ['\\', c] else [t[0]]) + Replaced(u, c, t[1..])
  }

  /** The second pass from place p on, for one that matches places. */
  function Marked(u: Classes, c: char, t: string, p: nat): (r: string)
    requires p <= |t|
    decreases |t| - p
  {
    (if Hits(u, c, t, p) then ['\\', c] else []) + if p == |t| then [] else [t[p]] + Marked(u, c, t, p + 1)
  }

  function Encoded(u: Classes, c: char, s: string): (r: string) {
    if ZeroWidth(c) then Marked(u, c, Doubled(s), 0) else Replaced(u, c, Doubled(s))
  }

  function EncodedAll(u: Classes, c: char, parts: seq<string>): (r: seq<string>)
    ensures |r| == |parts| && forall i | 0 <= i < |r| :: r[i] == Encoded(u, c, parts[i])
  {
    seq(|parts|, i requires 0 <= i < |parts| => Encoded(u, c, parts[i]))
  }

  /** None where re.sub raises. */
  function EscapeAndJoin(u: Classes, parts: seq<string>, c: char): (r: Option<string>) {
    if parts != [] && !Usable(c) then None else Some(Join(EncodedAll(u, c, parts), [c]))
  }

  // ----- what one element is encoded as -----

  /** The text with a backslash before every backslash and separator. */
  function Escaped(s: string, c: char): (r: string) {
    if s == [] then []
    else (if s[0] == '\\' || s[0] == c then ['\\', s[0]] else [s[0]]) + Escaped(s[1..], c)
  }

  /** Something else than the separator is taken for one. */
  ghost predicate Strays(u: Classes, c: char, s: string) {
    if ZeroWidth(c) then exists p | 0 <= p <= |Doubled(s)| :: Hits(u, c, Doubled(s), p)
    else exists i | 0 <= i < |s| :: s[i] != c && Matches(u, c, s[i])
  }

  /** The separator itself stays as it is. */
  predicate StaysBare(u: Classes, c: char) {
    ZeroWidth(c) || !Matches(u, c, c)
  }

  lemma {:induction false} ReplacedConcat(u: Classes, c: char, a: string, b: string)
    ensures Replaced(u, c, a + b) == Replaced(u, c, a) + Replaced(u, c, b)
  {
    hide Matches;
    if a == [] {
      assert a + b == b;
    } else {
      assert (a + b)[0] == a[0] && (a + b)[1..] == a[1..] + b;
      ReplacedConcat(u, c, a[1..], b);
    }
  }

  /** The encoding of one character. */
  function Unit(u: Classes, c: char, x: char): (r: string) {
    var one := if Matches(u, c, x) then ['\\', c] else [x];
    if x == '\\' then one + one else one
  }

  lemma ReplacedCons(u: Classes, c: char, s: string)
    requires s != []
    ensures Replaced(u, c, Doubled(s)) == Unit(u, c, s[0]) + Replaced(u, c, Doubled(s[1..]))
  {
    hide Matches;
    var head := if s[0] == '\\' then ['\\', '\\'] else [s[0]];
    ReplacedConcat(u, c, head, Doubled(s[1..]));
    assert [s[0]][1..] == [] && ['\\', '\\'][1..] == ['\\'] && ['\\'][1..] == [];
    assert Replaced(u, c, []) == [];
    var one := if Matches(u, c, s[0]) then ['\\', c] else [s[0]];
    assert Replaced(u, c, [s[0]]) == one + [] == one;
    if s[0] == '\\' {
      assert Replaced(u, c, ['\\', '\\']) == one + Replaced(u, c, ['\\']);
    }
  }

  lemma UnitCounts(u: Classes, c: char, x: char)
    requires c != '\\'
    ensures Count(Unit(u, c, x), c) >= if x == c then 1 else 0
    ensures x != c && Matches(u, c, x) ==> Count(Unit(u, c, x), c) > 0
  {
    hide Matches;
    var one := if Matches(u, c, x) then ['\\', c] else [x];
    assert one[1..] == if Matches(u, c, x) then [c] else [];
    assert [c][1..] == [];
    CountConcat(one, one, c);
  }

  lemma {:induction false} ReplacedCounts(u: Classes, c: char, s: string)
    requires c != '\\'
    ensures var n := Count(Replaced(u, c, Doubled(s)), c);
            n >= Count(s, c) && ((exists i | 0 <= i < |s| :: s[i] != c && Matches(u, c, s[i])) ==> n > Count(s, c))
  {
    hide Matches, Unit, Replaced, Doubled;
    if s != [] {
      ReplacedCons(u, c, s);
      ReplacedCounts(u, c, s[1..]);
      UnitCounts(u, c, s[0]);
      CountConcat(Unit(u, c, s[0]), Replaced(u, c, Doubled(s[1..])), c);
      if i :| 0 <= i < |s| && s[i] != c && Matches(u, c, s[i]) {
        if i > 0 {
          assert s[1..][i - 1] == s[i];
        }
      }
    }
  }

  /** Where only the separator is taken for one, the two passes escape it, or do nothing but the first. */
  lemma {:induction false} TwoPasses(u: Classes, c: char, s: string)
    requires c != '\\' && forall i | 0 <= i < |s| :: s[i] != c ==> !Matches(u, c, s[i])
    ensures Replaced(u, c, Doubled(s)) == if Matches(u, c, c) then Escaped(s, c) else Doubled(s)
  {
    hide Matches;
    if s != [] {
      ReplacedCons(u, c, s);
      TwoPasses(u, c, s[1..]);
      assert s[0] != '\\' ==> Unit(u, c, s[0]) == if Matches(u, c, s[0]) then ['\\', s[0]] else [s[0]];
      assert s[0] == '\\' ==> Unit(u, c, s[0]) == ['\\', '\\'];
    }
  }

  lemma {:induction false} MarkedCounts(u: Classes, c: char, t: string, p: nat)
    requires p <= |t| && c != '\\'
    ensures var n := Count(Marked(u, c, t, p), c);
            n >= Count(t[p..], c) && ((exists q | p <= q <= |t| :: Hits(u, c, t, q)) ==> n > Count(t[p..], c))
    decreases |t| - p
  {
    hide Hits;
    var mark := if Hits(u, c, t, p) then ['\\', c] else [];
    if p == |t| {
      assert mark + [] == mark;
      MarkCounts(c);
    } else {
      var x, rest := [t[p]], Marked(u, c, t, p + 1);
      MarkedCounts(u, c, t, p + 1);
      MarkCounts(c);
      hide Count, Marked;
      assert t[p..] == x + t[p + 1..];
      CountConcat(x, t[p + 1..], c);
      CountConcat(x, rest, c);
      CountConcat(mark, x + rest, c);
    }
  }

  lemma MarkCounts(c: char)
    ensures Count(['\\', c], c) >= 1 && Count([], c) == 0
  {
    assert ['\\', c][1..] == [c];
  }

  lemma {:induction false} MarkedNowhere(u: Classes, c: char, t: string, p: nat)
    requires p <= |t| && forall q | p <= q <= |t| :: !Hits(u, c, t, q)
    ensures Marked(u, c, t, p) == t[p..]
    decreases |t| - p
  {
    hide Hits;
    if p < |t| {
      MarkedNowhere(u, c, t, p + 1);
    }
  }

  lemma {:induction false} DoubledCounts(s: string, c: char)
    requires c != '\\'
    ensures Count(Doubled(s), c) == Count(s, c)
  {
    if s != [] {
      DoubledCounts(s[1..], c);
      var head := if s[0] == '\\' then ['\\', '\\'] else [s[0]];
      CountConcat(head, Doubled(s[1..]), c);
      assert [s[0]][1..] == [] && ['\\', '\\'][1..] == ['\\'] && ['\\'][1..] == [];
    }
  }

  lemma EncodedIs(u: Classes, c: char, s: string)
    requires c != '\\'
    ensures Count(Encoded(u, c, s), c) >= Count(s, c)
    ensures Strays(u, c, s) ==> Count(Encoded(u, c, s), c) > Count(s, c)
    ensures !Strays(u, c, s) ==> Encoded(u, c, s) == if StaysBare(u, c) then Doubled(s) else Escaped(s, c)
  {
    hide Matches, Hits, Replaced, Marked, Doubled, Count;
    if ZeroWidth(c) {
      MarkedCounts(u, c, Doubled(s), 0);
      DoubledCounts(s, c);
      assert Doubled(s)[0..] == Doubled(s);
      if !Strays(u, c, s) {
        MarkedNowhere(u, c, Doubled(s), 0);
      }
    } else {
      ReplacedCounts(u, c, s);
      if !Strays(u, c, s) {
        TwoPasses(u, c, s);
      }
    }
  }

  // ----- reading what was written -----

  /** An end of line that is escaped keeps its backslash. */
  function Kept(s: string, c: char): (r: string) {
    if s == [] then [] else (if s[0] == '\n' == c then ['\\', '\n'] else [s[0]]) + Kept(s[1..], c)
  }

  lemma {:induction false} KeptIs(s: string, c: char)
    ensures |Kept(s, c)| >= |s| && (c == '\n' && '\n' in s ==> |Kept(s, c)| > |s|)
    ensures c != '\n' || '\n' !in s ==> Kept(s, c) == s
  {
    if s != [] {
      KeptIs(s[1..], c);
    }
  }

  /** Doubled backslashes and escaped separators are read as what they stand for. */
  lemma {:induction false} EscapedReads(s: string, c: char, z: string)
    requires c != '\\'
    ensures Read(Escaped(s, c) + z, c) == Added(Kept(s, c), Read(z, c))
  {
    if s == [] {
      AddedTwice("", "", Read(z, c));
      assert Escaped(s, c) + z == z;
    } else {
      EscapedReads(s[1..], c, z);
      var y := Escaped(s[1..], c) + z;
      var unit := if s[0] == '\\' || s[0] == c then ['\\', s[0]] else [s[0]];
      assert Escaped(s, c) + z == unit + y;
      ReadsUnit(unit, y, c);
      EscapedUnit(s[0], c);
      AddedTwice(if s[0] == '\n' == c then ['\\', '\n'] else [s[0]], Kept(s[1..], c), Read(z, c));
    }
  }

  lemma ReadsUnit(unit: string, y: string, c: char)
    requires unit != [] && unit[0] != c && |unit| == if unit[0] == '\\' then 2 else 1
    ensures Read(unit + y, c) == Added(Unescaped(unit), Read(y, c))
  {
    var t := unit + y;
    UnescapedUnit(unit);
    assert t[..|unit|] == unit && t[|unit|..] == y && t[0] == unit[0];
    assert (|unit| == 1 ==> unit == [t[0]]) && (|unit| == 2 ==> t[1] == unit[1]);
  }

  lemma EscapedUnit(x: char, c: char)
    requires c != '\\'
    ensures Unescaped(if x == '\\' || x == c then ['\\', x] else [x]) == if x == '\n' == c then ['\\', '\n'] else [x]
  {
    assert ['\\', x][2..] == [] && [x][1..] == [];
  }

  function EscapedAll(parts: seq<string>, c: char): (r: seq<string>)
    ensures |r| == |parts| && forall i | 0 <= i < |r| :: r[i] == Escaped(parts[i], c)
  {
    seq(|parts|, i requires 0 <= i < |parts| => Escaped(parts[i], c))
  }

  /** What follows an element: nothing, or the separator and more. */
  function Tail(more: seq<string>, c: char): (r: string) {
    if more == [] then "" else [c] + Join(more, [c])
  }

  lemma JoinTail(es: seq<string>, c: char)
    requires es != []
    ensures Join(es, [c]) == es[0] + Tail(es[1..], c)
    ensures Read(Tail(es[1..], c), c) == [""] + if |es| == 1 then [] else Read(Join(es[1..], [c]), c)
  {
    hide Unescaped;
    if |es| > 1 {
      assert ([c] + Join(es[1..], [c]))[1..] == Join(es[1..], [c]);
    }
  }

  lemma {:induction false} JoinedReads(parts: seq<string>, c: char)
    requires parts != [] && c != '\\'
    ensures var r := Read(Join(EscapedAll(parts, c), [c]), c);
            |r| == |parts| && forall i | 0 <= i < |r| :: r[i] == Kept(parts[i], c)
  {
    hide Read, Join, Escaped, Kept, Tail;
    var es := EscapedAll(parts, c);
    assert es[1..] == EscapedAll(parts[1..], c);
    JoinTail(es, c);
    EscapedReads(parts[0], c, Tail(es[1..], c));
    var k := Kept(parts[0], c);
    assert k + "" == k;
    if |parts| > 1 {
      JoinedReads(parts[1..], c);
      var rest := Read(Join(es[1..], [c]), c);
      assert Read(Join(es, [c]), c) == [k] + rest;
    }
  }

  /** No element has the separator in it. */
  ghost predicate Cut(r: seq<string>, c: char) {
    forall i | 0 <= i < |r| :: c !in r[i]
  }

  lemma {:induction false} BareReads(s: string, c: char, z: string)
    requires c != '\\' && Cut(Read(z, c), c)
    ensures Cut(Read(Doubled(s) + z, c), c)
  {
    if s == [] {
      assert Doubled(s) + z == z;
    } else {
      BareReads(s[1..], c, z);
      var y := Doubled(s[1..]) + z;
      var unit := if s[0] == '\\' then ['\\', '\\'] else [s[0]];
      assert Doubled(s) + z == unit + y;
      if s[0] == c {
        assert (unit + y)[1..] == y;
      } else {
        ReadsUnit(unit, y, c);
        DoubledUnit(s[0]);
      }
    }
  }

  lemma DoubledUnit(x: char)
    ensures Unescaped(if x == '\\' then ['\\', '\\'] else [x]) == [x]
  {
    assert [x][1..] == [] && ['\\', x][2..] == [];
  }

  lemma {:induction false} JoinedBareReads(es: seq<string>, parts: seq<string>, c: char)
    requires parts != [] && c != '\\' && |es| == |parts| && forall i | 0 <= i < |es| :: es[i] == Doubled(parts[i])
    ensures Cut(Read(Join(es, [c]), c), c)
  {
    hide Read, Join, Doubled, Tail;
    JoinTail(es, c);
    if |es| > 1 {
      JoinedBareReads(es[1..], parts[1..], c);
    }
    BareReads(parts[0], c, Tail(es[1..], c));
  }

  // ----- the round trip -----

  /** The encoding exists and is read as the list; the empty list has the encoding of one empty text. */
  ghost predicate ReadsBack(u: Classes, parts: seq<string>, c: char) {
    var e := EscapeAndJoin(u, parts, c);
    e.Some? && UnescapedAll(Merged(Split(e.value, [c]), [c])) == if parts == [] then [""] else parts
  }

  /** Nothing in the text but the separator is taken for one; and the separator is escaped in a way that
      can be undone, or absent. */
  ghost predicate Writable(u: Classes, c: char, s: string) {
    !Strays(u, c, s) && (StaysBare(u, c) || c == '\n' ==> c !in s)
  }

  lemma {:induction false} NoneStrays(u: Classes, c: char, parts: seq<string>)
    requires c != '\\'
    ensures CountAll(EncodedAll(u, c, parts), c) >= CountAll(parts, c)
    ensures CountAll(EncodedAll(u, c, parts), c) == CountAll(parts, c) ==>
              forall i | 0 <= i < |parts| :: !Strays(u, c, parts[i])
  {
    hide Encoded, Strays, Count;
    if parts != [] {
      EncodedIs(u, c, parts[0]);
      NoneStrays(u, c, parts[1..]);
      assert EncodedAll(u, c, parts)[1..] == EncodedAll(u, c, parts[1..]);
      if CountAll(EncodedAll(u, c, parts), c) == CountAll(parts, c) {
        forall i | 0 <= i < |parts| ensures !Strays(u, c, parts[i]) {
          assert i > 0 ==> parts[i] == parts[1..][i - 1];
        }
      }
    }
  }

  /** A list that is read back has no strays, because reading keeps the number of separators. */
  lemma ReadBackHasNoStrays(u: Classes, c: char, parts: seq<string>)
    requires c != '\\' && parts != [] && Read(Join(EncodedAll(u, c, parts), [c]), c) == parts
    ensures forall i | 0 <= i < |parts| :: !Strays(u, c, parts[i])
  {
    hide Read, Join, Encoded, Strays, Count;
    var es := EncodedAll(u, c, parts);
    JoinCounts(es, c);
    ReadCounts(Join(es, [c]), c);
    NoneStrays(u, c, parts);
  }

  lemma WithoutStrays(u: Classes, c: char, parts: seq<string>)
    requires c != '\\' && parts != [] && forall i | 0 <= i < |parts| :: !Strays(u, c, parts[i])
    ensures Read(Join(EncodedAll(u, c, parts), [c]), c) == parts <==> forall i | 0 <= i < |parts| :: Writable(u, c, parts[i])
  {
    hide Read, Join, Encoded, Strays, StaysBare, Escaped, Kept;
    var es := EncodedAll(u, c, parts);
    forall i | 0 <= i < |parts| ensures es[i] == if StaysBare(u, c) then Doubled(parts[i]) else Escaped(parts[i], c) {
      EncodedIs(u, c, parts[i]);
    }
    if StaysBare(u, c) {
      JoinedBareReads(es, parts, c);
      if forall i | 0 <= i < |parts| :: c !in parts[i] {
        BareIsEscaped(es, parts, c);
        EscapedReadsBack(parts, c);
      }
    } else {
      assert es == EscapedAll(parts, c);
      EscapedReadsBack(parts, c);
    }
  }

  lemma {:induction false} DoubledIsEscaped(s: string, c: char)
    requires c !in s
    ensures Doubled(s) == Escaped(s, c)
  {
    if s != [] {
      DoubledIsEscaped(s[1..], c);
    }
  }

  lemma BareIsEscaped(es: seq<string>, parts: seq<string>, c: char)
    requires |es| == |parts| && forall i | 0 <= i < |es| :: es[i] == Doubled(parts[i]) && c !in parts[i]
    ensures es == EscapedAll(parts, c)
  {
    forall i | 0 <= i < |es| ensures es[i] == Escaped(parts[i], c) {
      DoubledIsEscaped(parts[i], c);
    }
  }

  lemma EscapedReadsBack(parts: seq<string>, c: char)
    requires c != '\\' && parts != []
    ensures Read(Join(EscapedAll(parts, c), [c]), c) == parts <==>
            forall i | 0 <= i < |parts| :: c == '\n' ==> '\n' !in parts[i]
  {
    hide Read, Join, Kept;
    JoinedReads(parts, c);
    var r := Read(Join(EscapedAll(parts, c), [c]), c);
    forall i | 0 <= i < |parts| ensures r[i] == parts[i] <==> (c == '\n' ==> '\n' !in parts[i]) {
      KeptIs(parts[i], c);
    }
  }

  /** For every list of texts and every separator: what EscapeAndJoin writes exists and is read back by
      UnescapeAndSplit exactly when the separator makes a regular expression and every text is writable. */
  lemma EscapedListReadsBack(u: Classes, parts: seq<string>, c: char)
    ensures ReadsBack(u, parts, c) <==>
            parts == [] || (Usable(c) && forall i | 0 <= i < |parts| :: Writable(u, c, parts[i]))
  {
    hide Split, Merged, UnescapedAll, Read, Join, Strays;
    var es := EncodedAll(u, c, parts);
    if parts == [] {
      NothingReadsBack(c);
    } else if Usable(c) {
      UnescapeAndSplitReads(Join(es, [c]), c);
      if Read(Join(es, [c]), c) == parts {
        ReadBackHasNoStrays(u, c, parts);
      }
      if forall i | 0 <= i < |parts| :: !Strays(u, c, parts[i]) {
        WithoutStrays(u, c, parts);
      }
    }
  }

  lemma NothingReadsBack(c: char)
    ensures Join([], [c]) == "" && UnescapedAll(Merged(Split("", [c]), [c])) == [""]
  {
    SplitNothing(c);
    NothingMerges("", [c]);
  }

  /** A separator with which every list is read back. */
  predicate SafeSeparator(c: char) {
    !LetterOrDigit(c) && c != '\\' && c != '\n'
  }

  /** A list with one element that a letter or digit as separator spoils. */
  function Spoiled(c: char): (parts: seq<string>) {
    if c in "DSw" then ["a"] else [[c]]
  }

  /** Every list of texts is read back exactly with the separators that are no letter or digit of ASCII, no
      backslash and no end of line. */
  lemma SafeExactly(u: Classes, c: char)
    ensures SafeSeparator(c) <==> forall parts :: ReadsBack(u, parts, c)
  {
    hide ReadsBack;
    if SafeSeparator(c) {
      forall parts ensures ReadsBack(u, parts, c) {
        EscapedListReadsBack(u, parts, c);
        assert !ZeroWidth(c) && forall x :: Matches(u, c, x) <==> x == c;
      }
    } else {
      SpoiledFails(u, c);
    }
  }

  lemma SpoiledFails(u: Classes, c: char)
    requires !SafeSeparator(c)
    ensures !ReadsBack(u, Spoiled(c), c)
  {
    hide ReadsBack, Writable;
    EscapedListReadsBack(u, Spoiled(c), c);
    if Usable(c) {
      SpoiledIsNot(u, c);
    }
  }

  lemma SpoiledIsNot(u: Classes, c: char)
    requires Usable(c) && !SafeSeparator(c)
    ensures !Writable(u, c, Spoiled(c)[0])
  {
    var s := Spoiled(c)[0];
    hide IsSpace, IsDigit, Doubled;
    if c in "DSw" {
      SpoilsA(u, c);
      assert s[0] != c && Matches(u, c, s[0]);
    } else if c != '\n' {
      assert c in s;
      BareLetters(u, c);
    }
  }

  lemma SpoilsA(u: Classes, c: char)
    requires c in "DSw"
    ensures !ZeroWidth(c) && Matches(u, c, 'a')
  {
  }

  lemma BareLetters(u: Classes, c: char)
    requires Usable(c) && LetterOrDigit(c) && c !in "DSw"
    ensures StaysBare(u, c)
  {
  }

  /** With "d" for a separator the text 7 is written like an escaped separator and read as d. */
  lemma DigitIsSpoiled(u: Classes)
    ensures EscapeAndJoin(u, ["7"], 'd') == Some(['\\', 'd'])
    ensures UnescapedAll(Merged(Split(['\\', 'd'], ['d']), ['d'])) == ["d"]
  {
    assert Doubled("7") == "7" && "7"[1..] == "";
    assert Replaced(u, 'd', "7") == ['\\', 'd'];
    assert EncodedAll(u, 'd', ["7"]) == [['\\', 'd']];
    UnescapeAndSplitReads(['\\', 'd'], 'd');
    EscapedReads("d", 'd', "");
    assert Escaped("d", 'd') == ['\\', 'd'] && Kept("d", 'd') == "d" && "d" + "" == "d" && "d"[1..] == "";
    assert ['\\', 'd'] + "" == ['\\', 'd'] && Read("", 'd') == [""];
  }
}
