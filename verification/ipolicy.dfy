/** Printing instance policy bounds as a command line option, and reading them back (lib/cli.py, lib/cli_opts.py). */
module InstancePolicies {
  import opened Basics
  import opened Text
  import opened Escaping

  const IPOLICY_STD_SPECS_STR := "--ipolicy-std-specs"
  const IPOLICY_BOUNDS_SPECS_STR := "--ipolicy-bounds-specs"

  datatype Result<+T> = Ok(value: T) | ParameterError(problem: Problem)
  datatype Problem =
    | MissingValue(elem: string) | DuplicateKey(key: string)
    | EmptySection | DuplicateIdent(ident: string) | OptionsOnRemoval(value: string)

  /** What an option says about a key: a text, or yes, no or nothing by its prefix. */
  datatype Val = Word(text: string) | Yes | No | Unset

  type Dict = map<string, Val>

  /** An item of a dictionary, its value as text. */
  datatype Item = Item(key: string, value: string)

  /** A dictionary in the order of its insertions. */
  type Specs = seq<Item>

  datatype MinMax = MinMax(min: Specs, max: Specs)

  // ----- the parser -----

  /** text.split(sep, 1), for a text with the separator in it. */
  function SplitOnce(s: string, sep: string): (r: (string, string))
    requires sep != [] && Find(s, sep).Some?
  {
    var i := Find(s, sep).value;
    (s[..i], s[i + |sep|..])
  }

  const NO_PREFIX := "no_"
  const UN_PREFIX := "-"

  function KeyVal(elem: string, prefixes: bool): (r: Result<(string, Val)>) {
    if Find(elem, "=").Some? then
      var (key, val) := SplitOnce(elem, "=");
      Ok((key, Word(val)))
    else if !prefixes then ParameterError(MissingValue(elem))
    else if NO_PREFIX <= elem then Ok((elem[|NO_PREFIX|..], No))
    else if UN_PREFIX <= elem then Ok((elem[|UN_PREFIX|..], Unset))
    else Ok((elem, Yes))
  }

  function AddItem(d: Dict, elem: string, prefixes: bool): (r: Result<Dict>) {
    match KeyVal(elem, prefixes)
    case ParameterError(e) => ParameterError(e)
    case Ok(kv) => if kv.0 in d then ParameterError(DuplicateKey(kv.0)) else Ok(d[kv.0 := kv.1])
  }

  function AddItems(d: Dict, elems: seq<string>, prefixes: bool): (r: Result<Dict>)
    decreases |elems|
  {
    if elems == [] then Ok(d)
    else
      match AddItem(d, elems[0], prefixes)
      case ParameterError(e) => ParameterError(e)
      case Ok(d') => AddItems(d', elems[1..], prefixes)
  }

  function KeyVals(data: string, prefixes: bool): (r: Result<Dict>) {
    if data == "" then Ok(map[])
    else AddItems(map[], UnescapedAll(Merged(Split(data, ","), ",")), prefixes)
  }

  /** _SplitKeyVal */
  method SplitKeyVal(data: string, prefixes: bool) returns (r: Result<Dict>)
    ensures r == KeyVals(data, prefixes)
  {
    hide Find, Split, Merged, Unescaped;
    var kvDict: Dict := map[];
    if data != "" {
      var elems := UnescapeAndSplit(data, ",");
      var i := 0;
      while i < |elems|
        invariant 0 <= i <= |elems| && AddItems(kvDict, elems[i..], prefixes) == AddItems(map[], elems, prefixes)
      {
        var elem := elems[i];
        assert elems[i..][1..] == elems[i + 1..];
        var key, val;
        if Find(elem, "=").Some? {
          var (k, v) := SplitOnce(elem, "=");
          key, val := k, Word(v);
        } else if prefixes {
          if NO_PREFIX <= elem {
            key, val := elem[|NO_PREFIX|..], No;
          } else if UN_PREFIX <= elem {
            key, val := elem[|UN_PREFIX|..], Unset;
          } else {
            key, val := elem, Yes;
          }
        } else {
          return ParameterError(MissingValue(elem));
        }
        if key in kvDict {
          return ParameterError(DuplicateKey(key));
        }
        kvDict := kvDict[key := val];
        i := i + 1;
      }
    }
    r := Ok(kvDict);
  }

  /** The identifier and the text behind it. */
  function IdentOf(value: string): (r: (string, string)) {
    if Find(value, ":").None? then (value, "") else SplitOnce(value, ":")
  }

  /** What an option says about an identifier: items, or that it is to be removed or reset. */
  datatype Section = Items(items: Dict) | Removed | Reset

  predicate IsDigit(c: char) {
    '0' <= c <= '9'
  }

  /** _SplitIdentKeyVal */
  function IdentKeyVals(value: string, prefixes: bool): (r: Result<(string, Section)>)
    ensures r.Ok? && !prefixes ==> r.value.1.Items?
  {
    var (ident, rest) := IdentOf(value);
    if prefixes && NO_PREFIX <= ident then
      if rest != "" then ParameterError(OptionsOnRemoval(value)) else Ok((ident[|NO_PREFIX|..], Removed))
    else if prefixes && UN_PREFIX <= ident && (|ident| <= |UN_PREFIX| || !IsDigit(ident[|UN_PREFIX|])) then
      if rest != "" then ParameterError(OptionsOnRemoval(value)) else Ok((ident[|UN_PREFIX|..], Reset))
    else
      match KeyVals(rest, prefixes)
      case ParameterError(e) => ParameterError(e)
      case Ok(d) => Ok((ident, Items(d)))
  }

  /** A prefix decides between no, nothing and yes for a key that stands alone. */
  lemma PrefixMeans(key: string)
    requires CleanText(key) && '=' !in key && key != ""
    ensures KeyVals(NO_PREFIX + key, true) == Ok(map[key := No])
    ensures KeyVals(UN_PREFIX + key, true) == Ok(map[key := Unset])
    ensures !(NO_PREFIX <= key) && !(UN_PREFIX <= key) ==> KeyVals(key, true) == Ok(map[key := Yes])
    ensures KeyVals(key, false) == ParameterError(MissingValue(key))
  {
    hide KeyVals;
    var a, b := NO_PREFIX + key, UN_PREFIX + key;
    AloneReads(a, true);
    AloneReads(b, true);
    AloneReads(key, true);
    AloneReads(key, false);
    assert a[|NO_PREFIX|..] == key && b[|UN_PREFIX|..] == key;
    assert b[0] == '-' && NO_PREFIX[0] == 'n';
  }

  lemma AloneReads(elem: string, prefixes: bool)
    requires CleanText(elem) && '=' !in elem && elem != ""
    ensures Find(elem, "=").None? && KeyVals(elem, prefixes) == AddItem(map[], elem, prefixes)
  {
    FreeHasNone(elem, '=');
    FreeIsClear(elem, ',');
    ClearHasNone(elem, ",");
    MergedPlain([elem], ",");
    UnescapedPlain([elem]);
    hide Split, Merged, Unescaped, AddItems;
    AddOne(elem, prefixes);
  }

  lemma AddOne(elem: string, prefixes: bool)
    ensures AddItems(map[], [elem], prefixes) == AddItem(map[], elem, prefixes)
  {
    hide AddItem;
    var elems := [elem];
    assert elems[1..] == [];
    var first := AddItem(map[], elem, prefixes);
    assert first.Ok? ==> AddItems(first.value, elems[1..], prefixes) == first;
  }

  function KeyOf(elem: string, prefixes: bool): (r: string) {
    var kv := KeyVal(elem, prefixes);
    if kv.Ok? then kv.value.0 else ""
  }

  /** Every element says something about a key, about a new one each. */
  ghost predicate Unambiguous(d: Dict, elems: seq<string>, prefixes: bool) {
    && (forall i | 0 <= i < |elems| :: KeyVal(elems[i], prefixes).Ok? && KeyOf(elems[i], prefixes) !in d)
    && (forall i, j | 0 <= i < j < |elems| :: KeyOf(elems[i], prefixes) != KeyOf(elems[j], prefixes))
  }

  /** The old entries and one for each element, and no others. */
  ghost predicate Extends(d: Dict, elems: seq<string>, prefixes: bool, r: Dict) {
    && (forall k <- d :: k in r && r[k] == d[k])
    && (forall i | 0 <= i < |elems| ::
          KeyVal(elems[i], prefixes).Ok? && KeyOf(elems[i], prefixes) in r &&
          r[KeyOf(elems[i], prefixes)] == KeyVal(elems[i], prefixes).value.1)
    && (forall k <- r :: k in d || exists i | 0 <= i < |elems| :: KeyOf(elems[i], prefixes) == k)
  }

  lemma UnambiguousSplits(d: Dict, elems: seq<string>, prefixes: bool, d': Dict)
    requires elems != [] && AddItem(d, elems[0], prefixes) == Ok(d')
    ensures Unambiguous(d, elems, prefixes) <==> Unambiguous(d', elems[1..], prefixes)
  {
    hide KeyVal;
    var rest := elems[1..];
    assert forall i | 0 < i < |elems| :: elems[i] == rest[i - 1];
    if Unambiguous(d', rest, prefixes) {
      forall i, j | 0 <= i < j < |elems| ensures KeyOf(elems[i], prefixes) != KeyOf(elems[j], prefixes) {
        assert KeyOf(rest[j - 1], prefixes) !in d';
      }
    }
  }

  lemma ExtendsCons(d: Dict, elems: seq<string>, prefixes: bool, d': Dict, r: Dict)
    requires elems != [] && AddItem(d, elems[0], prefixes) == Ok(d') && Extends(d', elems[1..], prefixes, r)
    ensures Extends(d, elems, prefixes, r)
  {
    hide KeyVal;
    var rest := elems[1..];
    assert forall i | 0 < i < |elems| :: elems[i] == rest[i - 1];
    forall k | k in r && k !in d ensures exists i | 0 <= i < |elems| :: KeyOf(elems[i], prefixes) == k {
      if k in d' {
        assert KeyOf(elems[0], prefixes) == k;
      } else {
        var i :| 0 <= i < |rest| && KeyOf(rest[i], prefixes) == k;
        assert KeyOf(elems[i + 1], prefixes) == k;
      }
    }
  }

  /** Reading succeeds exactly when every element has a key and no key comes twice, and then gives the
      dictionary of exactly these keys with what was said about each. */
  lemma {:induction false} ItemsExactly(d: Dict, elems: seq<string>, prefixes: bool)
    ensures AddItems(d, elems, prefixes).Ok? <==> Unambiguous(d, elems, prefixes)
    ensures AddItems(d, elems, prefixes).Ok? ==> Extends(d, elems, prefixes, AddItems(d, elems, prefixes).value)
    decreases |elems|
  {
    hide KeyVal;
    if elems != [] {
      var first := AddItem(d, elems[0], prefixes);
      if first.Ok? {
        ItemsExactly(first.value, elems[1..], prefixes);
        UnambiguousSplits(d, elems, prefixes, first.value);
        hide Unambiguous, Extends;
        if AddItems(first.value, elems[1..], prefixes).Ok? {
          ExtendsCons(d, elems, prefixes, first.value, AddItems(first.value, elems[1..], prefixes).value);
        }
      } else {
        assert !(KeyVal(elems[0], prefixes).Ok? && KeyOf(elems[0], prefixes) !in d);
      }
    }
  }

  /** The first element that has no key or repeats one, and what is wrong with it. */
  ghost predicate FirstProblem(d: Dict, elems: seq<string>, prefixes: bool, n: nat, problem: Problem) {
    && n < |elems| && Unambiguous(d, elems[..n], prefixes) && !Unambiguous(d, elems[..n + 1], prefixes)
    && problem == if KeyVal(elems[n], prefixes).Ok? then DuplicateKey(KeyOf(elems[n], prefixes))
                  else KeyVal(elems[n], prefixes).problem
  }

  /** A failure names the first element that is at fault. */
  lemma {:induction false} ItemsFail(d: Dict, elems: seq<string>, prefixes: bool) returns (n: nat)
    requires AddItems(d, elems, prefixes).ParameterError?
    ensures FirstProblem(d, elems, prefixes, n, AddItems(d, elems, prefixes).problem)
    decreases |elems|
  {
    hide KeyVal;
    var first := AddItem(d, elems[0], prefixes);
    if first.Ok? {
      var rest := elems[1..];
      n := ItemsFail(first.value, rest, prefixes);
      assert elems[..n + 1][1..] == rest[..n] && elems[..n + 2][1..] == rest[..n + 1];
      UnambiguousSplits(d, elems[..n + 1], prefixes, first.value);
      UnambiguousSplits(d, elems[..n + 2], prefixes, first.value);
      n := n + 1;
    } else {
      n := 0;
      assert elems[..1][0] == elems[0];
      assert !(KeyVal(elems[0], prefixes).Ok? && KeyOf(elems[0], prefixes) !in d);
    }
  }

  /** The items behind the identifier are read, with or without a colon if there are none. */
  ghost predicate ItemsBehind(ident: string, rest: string, prefixes: bool) {
    var d := KeyVals(rest, prefixes);
    && IdentKeyVals(ident, prefixes) == Ok((ident, Items(map[])))
    && IdentKeyVals(ident + ":" + rest, prefixes) ==
       if d.Ok? then Ok((ident, Items(d.value))) else ParameterError(d.problem)
  }

  lemma IdentParts(ident: string, rest: string)
    requires ':' !in ident
    ensures IdentOf(ident) == (ident, "") && IdentOf(ident + ":" + rest) == (ident, rest)
  {
    FreeHasNone(ident, ':');
    FreeIsClear(ident, ':');
    FindAfter(ident, ":", rest);
    var s := ident + ":" + rest;
    assert s[..|ident|] == ident && s[|ident| + 1..] == rest;
  }

  /** After the first prefix an identifier is removed, and has nothing behind it. */
  lemma IdentRemoved(ident: string, rest: string)
    requires ':' !in ident
    ensures IdentKeyVals(NO_PREFIX + ident, true) == Ok((ident, Removed))
    ensures rest != "" ==> IdentKeyVals(NO_PREFIX + ident + ":" + rest, true) ==
                             ParameterError(OptionsOnRemoval(NO_PREFIX + ident + ":" + rest))
  {
    hide KeyVals, IdentOf;
    var a := NO_PREFIX + ident;
    assert a[|NO_PREFIX|..] == ident;
    IdentParts(a, rest);
  }

  /** After a dash it is reset, and has nothing behind it, unless it begins with a digit. */
  lemma IdentReset(ident: string, rest: string)
    requires ':' !in ident && (ident == "" || !IsDigit(ident[0]))
    ensures IdentKeyVals(UN_PREFIX + ident, true) == Ok((ident, Reset))
    ensures rest != "" ==> IdentKeyVals(UN_PREFIX + ident + ":" + rest, true) ==
                             ParameterError(OptionsOnRemoval(UN_PREFIX + ident + ":" + rest))
  {
    hide KeyVals, IdentOf;
    var b := UN_PREFIX + ident;
    assert b[|UN_PREFIX|..] == ident && b[0] == '-' && NO_PREFIX[0] == 'n';
    assert ident != "" ==> b[1] == ident[0];
    IdentParts(b, rest);
  }

  /** The identifier is neither removed nor reset. */
  predicate Stays(ident: string) {
    !(NO_PREFIX <= ident) && (UN_PREFIX <= ident ==> |ident| > |UN_PREFIX| && IsDigit(ident[|UN_PREFIX|]))
  }

  /** Any other identifier has the items behind it, a negative number among them; where prefixes are not
      looked for so has every identifier. */
  lemma IdentStays(ident: string, rest: string, prefixes: bool)
    requires ':' !in ident && (prefixes ==> Stays(ident))
    ensures ItemsBehind(ident, rest, prefixes)
  {
    assert KeyVals("", prefixes) == Ok(map[]);
    hide KeyVals, IdentOf;
    IdentParts(ident, rest);
  }

  type Sections = map<string, Dict>

  function AddSection(d: Sections, elem: string): (r: Result<Sections>) {
    if elem == "" then ParameterError(EmptySection)
    else
      match IdentKeyVals(elem, false)
      case ParameterError(e) => ParameterError(e)
      case Ok(p) => if p.0 in d then ParameterError(DuplicateIdent(p.0)) else Ok(d[p.0 := p.1.items])
  }

  function AddSections(d: Sections, elems: seq<string>): (r: Result<Sections>)
    decreases |elems|
  {
    if elems == [] then Ok(d)
    else
      match AddSection(d, elems[0])
      case ParameterError(e) => ParameterError(e)
      case Ok(d') => AddSections(d', elems[1..])
  }

  method SplitListKeyVal(value: string) returns (r: Result<Sections>)
    ensures r == AddSections(map[], Split(value, "/"))
  {
    var retval: Sections := map[];
    var elems := Split(value, "/");
    var i := 0;
    while i < |elems|
      invariant 0 <= i <= |elems| && AddSections(retval, elems[i..]) == AddSections(map[], elems)
    {
      var elem := elems[i];
      assert elems[i..][1..] == elems[i + 1..];
      if elem == "" {
        return ParameterError(EmptySection);
      }
      var (ident, rest) := IdentOf(elem);
      var valdict := SplitKeyVal(rest, false);
      if valdict.ParameterError? {
        return ParameterError(valdict.problem);
      }
      if ident in retval {
        return ParameterError(DuplicateIdent(ident));
      }
      retval := retval[ident := valdict.value];
      i := i + 1;
    }
    r := Ok(retval);
  }

  function IdentIn(elem: string): (r: string) {
    IdentOf(elem).0
  }

  /** Every section has items that can be read and a name of its own. */
  ghost predicate Separate(d: Sections, elems: seq<string>) {
    && (forall i | 0 <= i < |elems| ::
          elems[i] != "" && KeyVals(IdentOf(elems[i]).1, false).Ok? && IdentIn(elems[i]) !in d)
    && (forall i, j | 0 <= i < j < |elems| :: IdentIn(elems[i]) != IdentIn(elems[j]))
  }

  ghost predicate Holds(d: Sections, elems: seq<string>, r: Sections) {
    && (forall k <- d :: k in r && r[k] == d[k])
    && (forall i | 0 <= i < |elems| ::
          IdentIn(elems[i]) in r && KeyVals(IdentOf(elems[i]).1, false) == Ok(r[IdentIn(elems[i])]))
    && (forall k <- r :: k in d || exists i | 0 <= i < |elems| :: IdentIn(elems[i]) == k)
  }

  lemma AddSectionIs(d: Sections, elem: string)
    ensures AddSection(d, elem).Ok? <==>
            elem != "" && KeyVals(IdentOf(elem).1, false).Ok? && IdentIn(elem) !in d
    ensures AddSection(d, elem).Ok? ==>
              AddSection(d, elem).value == d[IdentIn(elem) := KeyVals(IdentOf(elem).1, false).value]
  {
    hide KeyVals;
  }

  lemma SeparateSplits(d: Sections, elems: seq<string>, d': Sections)
    requires elems != [] && AddSection(d, elems[0]) == Ok(d')
    ensures Separate(d, elems) <==> Separate(d', elems[1..])
  {
    hide KeyVals, IdentOf, AddSection;
    AddSectionIs(d, elems[0]);
    var rest := elems[1..];
    assert forall i | 0 < i < |elems| :: elems[i] == rest[i - 1];
    if Separate(d', rest) {
      forall i, j | 0 <= i < j < |elems| ensures IdentIn(elems[i]) != IdentIn(elems[j]) {
        assert IdentIn(rest[j - 1]) !in d';
      }
    }
  }

  lemma HoldsCons(d: Sections, elems: seq<string>, d': Sections, r: Sections)
    requires elems != [] && AddSection(d, elems[0]) == Ok(d') && Holds(d', elems[1..], r)
    ensures Holds(d, elems, r)
  {
    hide KeyVals, IdentOf, AddSection;
    AddSectionIs(d, elems[0]);
    var rest := elems[1..];
    assert forall i | 0 < i < |elems| :: elems[i] == rest[i - 1];
    forall k | k in r && k !in d ensures exists i | 0 <= i < |elems| :: IdentIn(elems[i]) == k {
      if k in d' {
        assert IdentIn(elems[0]) == k;
      } else {
        var i :| 0 <= i < |rest| && IdentIn(rest[i]) == k;
        assert IdentIn(elems[i + 1]) == k;
      }
    }
  }

  /** Sections are read exactly when none is empty, no name comes twice and all their items can be read, and
      each name then stands for its own items. */
  lemma {:induction false} SectionsExactly(d: Sections, elems: seq<string>)
    ensures AddSections(d, elems).Ok? <==> Separate(d, elems)
    ensures AddSections(d, elems).Ok? ==> Holds(d, elems, AddSections(d, elems).value)
    decreases |elems|
  {
    hide KeyVals, IdentOf, AddSection;
    if elems != [] {
      var first := AddSection(d, elems[0]);
      AddSectionIs(d, elems[0]);
      if first.Ok? {
        SectionsExactly(first.value, elems[1..]);
        SeparateSplits(d, elems, first.value);
        hide Separate, Holds;
        if AddSections(first.value, elems[1..]).Ok? {
          HoldsCons(d, elems, first.value, AddSections(first.value, elems[1..]).value);
        }
      } else {
        assert !(elems[0] != "" && KeyVals(IdentOf(elems[0]).1, false).Ok? && IdentIn(elems[0]) !in d);
      }
    }
  }

  function ParseLines(lines: seq<string>): (r: Result<seq<Sections>>) {
    if lines == [] then Ok([])
    else
      var init := ParseLines(lines[..|lines| - 1]);
      if init.ParameterError? then init
      else
        var last := AddSections(map[], Split(lines[|lines| - 1], "/"));
        if last.ParameterError? then ParameterError(last.problem) else Ok(init.value + [last.value])
  }

  lemma {:induction false} ParseLinesFails(lines: seq<string>, n: nat)
    requires n <= |lines| && ParseLines(lines[..n]).ParameterError?
    ensures ParseLines(lines) == ParseLines(lines[..n])
    decreases |lines|
  {
    if n < |lines| {
      var init := lines[..|lines| - 1];
      assert init[..n] == lines[..n];
      ParseLinesFails(init, n);
    } else {
      assert lines[..n] == lines;
    }
  }

  /** check_multilist_ident_key_val */
  method CheckMultilist(value: string) returns (r: Result<seq<Sections>>)
    ensures r == ParseLines(Split(value, "//"))
  {
    var retval: seq<Sections> := [];
    var lines := Split(value, "//");
    var i := 0;
    while i < |lines|
      invariant 0 <= i <= |lines| && ParseLines(lines[..i]) == Ok(retval)
    {
      var section := SplitListKeyVal(lines[i]);
      assert lines[..i + 1][..i] == lines[..i];
      if section.ParameterError? {
        ParseLinesFails(lines, i + 1);
        return ParameterError(section.problem);
      }
      retval := retval + [section.value];
      i := i + 1;
    }
    assert lines[..i] == lines;
    r := Ok(retval);
  }

  // ----- the printer -----

  function InsertItem(x: Item, items: Specs): (r: Specs) {
    if items == [] || NameLe(x.key, items[0].key) then [x] + items
    else [items[0]] + InsertItem(x, items[1..])
  }

  /** sorted(specs.items()) */
  function SortItems(items: Specs): (r: Specs) {
    if items == [] then [] else InsertItem(items[0], SortItems(items[1..]))
  }

  ghost predicate AscendingKeys(items: Specs) {
    forall i, j | 0 <= i < j < |items| :: NameLe(items[i].key, items[j].key)
  }

  lemma {:induction false} InsertItemSorts(x: Item, items: Specs)
    requires AscendingKeys(items)
    ensures AscendingKeys(InsertItem(x, items)) && multiset(InsertItem(x, items)) == multiset{x} + multiset(items)
  {
    hide NameLe;
    if items != [] {
      assert items == [items[0]] + items[1..];
      if NameLe(x.key, items[0].key) {
        forall j | 0 < j < |items| ensures NameLe(x.key, items[j].key) {
          NameTrans(x.key, items[0].key, items[j].key);
        }
      } else {
        NameTotal(x.key, items[0].key);
        InsertItemSorts(x, items[1..]);
        var rest := InsertItem(x, items[1..]);
        forall j | 0 <= j < |rest| ensures NameLe(items[0].key, rest[j].key) {
          assert rest[j] in multiset(rest);
        }
      }
    }
  }

  /** sorted() gives the same items in ascending order of their keys. */
  lemma {:induction false} SortItemsSorts(items: Specs)
    ensures AscendingKeys(SortItems(items)) && multiset(SortItems(items)) == multiset(items)
  {
    if items != [] {
      SortItemsSorts(items[1..]);
      InsertItemSorts(items[0], SortItems(items[1..]));
      assert items == [items[0]] + items[1..];
    }
  }

  function ItemTexts(items: Specs): (r: seq<string>)
    ensures |r| == |items| && forall i | 0 <= i < |r| :: r[i] == items[i].key + "=" + items[i].value
  {
    seq(|items|, i requires 0 <= i < |items| => items[i].key + "=" + items[i].value)
  }

  function SpecsText(specs: Specs): (r: string) {
    Join(ItemTexts(SortItems(specs)), ",")
  }

  function MinMaxText(m: MinMax): (r: string) {
    Join(["min:" + SpecsText(m.min), "max:" + SpecsText(m.max)], "/")
  }

  /** The entries that are printed: those with both bounds. */
  function Complete(ms: seq<MinMax>): (r: seq<MinMax>)
    ensures forall m | m in r :: m in ms && m.min != [] && m.max != []
  {
    if ms == [] then []
    else Complete(ms[..|ms| - 1]) +
         (if ms[|ms| - 1].min != [] && ms[|ms| - 1].max != [] then [ms[|ms| - 1]] else [])
  }

  function MinMaxTexts(ms: seq<MinMax>): (r: seq<string>)
    ensures |r| == |ms| && forall i | 0 <= i < |r| :: r[i] == MinMaxText(ms[i])
  {
    seq(|ms|, i requires 0 <= i < |ms| => MinMaxText(ms[i]))
  }

  /** The argument of the option for the bounds. */
  function BoundsText(ms: seq<MinMax>): (r: string) {
    Join(MinMaxTexts(ms), "//")
  }

  function OptionText(option: string): (r: string) {
    " " + option + " "
  }

  class Buffer {
    var text: string

    constructor ()
      ensures text == ""
    {
      text := "";
    }

    method Write(s: string)
      modifies this
      ensures text == old(text) + s
    {
      text := text + s;
    }
  }

  lemma {:induction false} JoinAppend(parts: seq<string>, last: string, sep: string)
    requires parts != []
    ensures Join(parts + [last], sep) == Join(parts, sep) + sep + last
  {
    assert (parts + [last])[1..] == parts[1..] + [last];
    if |parts| > 1 {
      JoinAppend(parts[1..], last, sep);
      assert parts[0] + sep + (Join(parts[1..], sep) + sep + last) ==
             parts[0] + sep + Join(parts[1..], sep) + sep + last;
    } else {
      assert (parts + [last])[1..] == [last];
    }
  }

  lemma MinMaxTextIs(old': string, m: MinMax)
    ensures old' + "min:" + SpecsText(m.min) + "/max:" + SpecsText(m.max) == old' + MinMaxText(m)
  {
    var x, y := SpecsText(m.min), SpecsText(m.max);
    var a, b := "min:" + x, "max:" + y;
    JoinTwo(a, b, "/");
    assert "/max:" == "/" + "max:";
    Regroup(old', "min:", x, "/", "max:", y);
  }

  lemma Regroup(o: string, a: string, b: string, c: string, d: string, e: string)
    ensures o + a + b + (c + d) + e == o + ((a + b) + c + (d + e))
  {
  }

  /** Writes every item once, in ascending order of the keys, with commas between. */
  method PrintSpecsParameters(buf: Buffer, specs: Specs)
    modifies buf
    ensures exists items: Specs ::
              && AscendingKeys(items) && multiset(items) == multiset(specs)
              && buf.text == old(buf.text) + Join(ItemTexts(items), ",")
    ensures buf.text == old(buf.text) + SpecsText(specs)
  {
    SortItemsSorts(specs);
    var values := ItemTexts(SortItems(specs));
    buf.Write(Join(values, ","));
  }

  method PrintIPolicyCommand(buf: Buffer, std: Specs, minmaxes: seq<MinMax>, isGroup: bool)
    modifies buf
    ensures var stdText := if isGroup || std == [] then "" else OptionText(IPOLICY_STD_SPECS_STR) + SpecsText(std);
            buf.text == old(buf.text) + stdText + Printed(Complete(minmaxes))
  {
    hide SpecsText, MinMaxText, Printed, OptionText, Complete;
    if !isGroup {
      if std != [] {
        buf.Write(OptionText(IPOLICY_STD_SPECS_STR));
        PrintSpecsParameters(buf, std);
      }
    }
    ghost var start := buf.text;
    var first := true;
    PrintedNone();
    var i := 0;
    while i < |minmaxes|
      invariant 0 <= i <= |minmaxes|
      invariant first <==> Complete(minmaxes[..i]) == []
      invariant buf.text == start + Printed(Complete(minmaxes[..i]))
    {
      var m := minmaxes[i];
      CompleteNext(minmaxes, i);
      if m.min != [] && m.max != [] {
        PrintedAppend(start, Complete(minmaxes[..i]), m);
        if first {
          buf.Write(OptionText(IPOLICY_BOUNDS_SPECS_STR));
          first := false;
        } else {
          buf.Write("//");
        }
        ghost var before := buf.text;
        buf.Write("min:");
        PrintSpecsParameters(buf, m.min);
        buf.Write("/max:");
        PrintSpecsParameters(buf, m.max);
        MinMaxTextIs(before, m);
      }
      i := i + 1;
    }
    assert minmaxes[..i] == minmaxes;
  }

  /** The option with its argument, if there is anything to print. */
  function Printed(bounds: seq<MinMax>): (r: string) {
    if bounds == [] then "" else OptionText(IPOLICY_BOUNDS_SPECS_STR) + BoundsText(bounds)
  }

  lemma PrintedNone()
    ensures Printed([]) == "" && Complete([]) == []
  {
  }

  lemma CompleteNext(ms: seq<MinMax>, i: nat)
    requires i < |ms|
    ensures Complete(ms[..i + 1]) ==
            if ms[i].min != [] && ms[i].max != [] then Complete(ms[..i]) + [ms[i]] else Complete(ms[..i])
  {
    assert ms[..i + 1][..i] == ms[..i];
  }

  lemma PrintedAppend(start: string, bounds: seq<MinMax>, m: MinMax)
    ensures start + Printed(bounds + [m]) ==
            start + Printed(bounds) + (if bounds == [] then OptionText(IPOLICY_BOUNDS_SPECS_STR) else "//") + MinMaxText(m)
  {
    hide MinMaxText, Join;
    var texts := MinMaxTexts(bounds);
    assert MinMaxTexts(bounds + [m]) == texts + [MinMaxText(m)];
    if bounds != [] {
      JoinAppend(texts, MinMaxText(m), "//");
      Regroup3(start, OptionText(IPOLICY_BOUNDS_SPECS_STR), Join(texts, "//"), "//", MinMaxText(m));
    } else {
      JoinOne(MinMaxText(m), "//");
      assert texts + [MinMaxText(m)] == [MinMaxText(m)];
    }
  }

  lemma JoinTwo(a: string, b: string, sep: string)
    ensures Join([a, b], sep) == a + sep + b
  {
  }

  lemma JoinOne(s: string, sep: string)
    ensures Join([s], sep) == s
  {
  }

  lemma Regroup3(o: string, a: string, b: string, c: string, d: string)
    ensures o + (a + (b + c + d)) == o + (a + b) + c + d
  {
  }

  // ----- reading back what was printed -----

  predicate DistinctKeys(items: Specs) {
    forall i, j | 0 <= i < j < |items| :: items[i].key != items[j].key
  }

  predicate CleanText(s: string) {
    ',' !in s && '/' !in s && '\\' !in s
  }

  /** Free of the separators. */
  predicate Clean(x: Item) {
    CleanText(x.key) && CleanText(x.value) && '=' !in x.key
  }

  predicate CleanSpecs(items: Specs) {
    DistinctKeys(items) && forall i | 0 <= i < |items| :: Clean(items[i])
  }

  /** The dictionary as a map. */
  function AsMap(items: Specs): (r: Dict) {
    if items == [] then map[] else AsMap(items[1..])[items[0].key := Word(items[0].value)]
  }

  lemma {:induction false} NotAKey(items: Specs, k: string)
    requires forall i | 0 <= i < |items| :: items[i].key != k
    ensures k !in AsMap(items)
  {
    if items != [] {
      NotAKey(items[1..], k);
    }
  }

  /** Sorting moves items about, nothing else. */
  lemma {:induction false} InsertItemKeeps(x: Item, items: Specs)
    requires CleanSpecs(items) && Clean(x) && forall y | y in items :: y.key != x.key
    ensures CleanSpecs(InsertItem(x, items)) && InsertItem(x, items) != []
    ensures forall y :: y in InsertItem(x, items) <==> y == x || y in items
  {
    hide Clean, NameLe;
    if items != [] && !NameLe(x.key, items[0].key) {
      InsertItemKeeps(x, items[1..]);
      var more := InsertItem(x, items[1..]);
      assert forall y | y in more :: y.key != items[0].key;
    }
  }

  lemma {:induction false} InsertItemMap(x: Item, items: Specs)
    requires forall i | 0 <= i < |items| :: items[i].key != x.key
    ensures AsMap(InsertItem(x, items)) == AsMap(items)[x.key := Word(x.value)]
  {
    hide NameLe;
    if items == [] || NameLe(x.key, items[0].key) {
      assert ([x] + items)[1..] == items;
    } else {
      InsertItemMap(x, items[1..]);
      var more := InsertItem(x, items[1..]);
      assert ([items[0]] + more)[1..] == more;
    }
  }

  lemma {:induction false} SortItemsKeeps(items: Specs)
    requires CleanSpecs(items)
    ensures CleanSpecs(SortItems(items)) && (items != [] ==> SortItems(items) != [])
    ensures AsMap(SortItems(items)) == AsMap(items)
    ensures forall y :: y in SortItems(items) <==> y in items
  {
    hide Clean;
    if items != [] {
      SortItemsKeeps(items[1..]);
      var rest := SortItems(items[1..]);
      assert forall i | 0 <= i < |rest| :: rest[i] in items[1..];
      InsertItemKeeps(items[0], rest);
      InsertItemMap(items[0], rest);
    }
  }

  lemma ItemTextParts(x: Item)
    requires Clean(x)
    ensures Find(x.key + "=" + x.value, "=").Some? && SplitOnce(x.key + "=" + x.value, "=") == (x.key, x.value)
    ensures CleanText(x.key + "=" + x.value)
  {
    FreeIsClear(x.key, '=');
    FindAfter(x.key, "=", x.value);
    var s := x.key + "=" + x.value;
    assert s[..|x.key|] == x.key && s[|x.key| + 1..] == x.value;
  }

  lemma {:induction false} ItemsRead(d: Dict, items: Specs)
    requires CleanSpecs(items) && forall i | 0 <= i < |items| :: items[i].key !in d
    ensures AddItems(d, ItemTexts(items), false) == Ok(d + AsMap(items))
    decreases |items|
  {
    hide Clean;
    if items == [] {
      assert d + AsMap(items) == d;
    } else {
      var x, rest := items[0], items[1..];
      var d' := d[x.key := Word(x.value)];
      FirstItemRead(d, items);
      assert forall i | 0 <= i < |rest| :: rest[i] == items[i + 1];
      ItemsRead(d', rest);
      NotAKey(rest, x.key);
      UnionMoves(d, AsMap(rest), x.key, Word(x.value));
    }
  }

  lemma FirstItemRead(d: Dict, items: Specs)
    requires items != [] && Clean(items[0]) && items[0].key !in d
    ensures AddItems(d, ItemTexts(items), false) == AddItems(d[items[0].key := Word(items[0].value)], ItemTexts(items[1..]), false)
  {
    hide Find, SplitOnce, Clean;
    ItemTextParts(items[0]);
    assert ItemTexts(items)[1..] == ItemTexts(items[1..]);
  }

  lemma UnionMoves(d: Dict, e: Dict, k: string, v: Val)
    requires k !in e
    ensures d[k := v] + e == d + e[k := v]
  {
  }

  lemma {:induction false} JoinFree(parts: seq<string>, sep: string, c: char)
    requires c !in sep && forall i | 0 <= i < |parts| :: c !in parts[i]
    ensures c !in Join(parts, sep)
  {
    if |parts| > 1 {
      JoinFree(parts[1..], sep, c);
    }
  }

  /** The text of a dictionary reads as that dictionary. */
  lemma SpecsRead(specs: Specs)
    requires CleanSpecs(specs) && specs != []
    ensures KeyVals(SpecsText(specs), false) == Ok(AsMap(specs))
    ensures '/' !in SpecsText(specs)
  {
    hide Join, Split, Find, SortItems, AsMap, AddItems, Merged, Unescaped, InsertItem, CleanText;
    var sorted := SortItems(specs);
    SortItemsKeeps(specs);
    var texts := ItemTexts(sorted);
    TextsAreClean(sorted);
    SplitJoin(texts, ",");
    SpecsTextIsSome(texts);
    MergedPlain(texts, ",");
    UnescapedPlain(texts);
    ItemsRead(map[], sorted);
    assert map[] + AsMap(sorted) == AsMap(sorted);
    JoinFree(texts, ",", '/');
  }

  lemma TextsAreClean(items: Specs)
    requires CleanSpecs(items)
    ensures forall i | 0 <= i < |items| ::
              var s := ItemTexts(items)[i]; s != [] && '\\' !in s && '/' !in s && Clear(s, ",")
  {
    forall i | 0 <= i < |items|
      ensures var s := ItemTexts(items)[i]; s != [] && '\\' !in s && '/' !in s && Clear(s, ",")
    {
      ItemTextParts(items[i]);
      FreeIsClear(ItemTexts(items)[i], ',');
    }
  }

  lemma SpecsTextIsSome(texts: seq<string>)
    requires texts != [] && texts[0] != []
    ensures Join(texts, ",") != ""
  {
  }

  lemma SectionRead(d: Sections, ident: string, specs: Specs)
    requires CleanSpecs(specs) && specs != [] && ':' !in ident && ident !in d
    ensures AddSection(d, ident + ":" + SpecsText(specs)) == Ok(d[ident := AsMap(specs)])
  {
    hide SpecsText, KeyVals, AsMap;
    var text := SpecsText(specs);
    var elem := ident + ":" + text;
    SpecsRead(specs);
    FreeIsClear(ident, ':');
    FindAfter(ident, ":", text);
    assert elem[..|ident|] == ident && elem[|ident| + 1..] == text;
  }

  function AsSections(m: MinMax): (r: Sections) {
    map["min" := AsMap(m.min), "max" := AsMap(m.max)]
  }

  predicate CleanMinMax(m: MinMax) {
    m.min != [] && m.max != [] && CleanSpecs(m.min) && CleanSpecs(m.max)
  }

  lemma LineRead(m: MinMax)
    requires CleanMinMax(m)
    ensures AddSections(map[], Split(MinMaxText(m), "/")) == Ok(AsSections(m))
    ensures Clear(MinMaxText(m), "//")
  {
    hide SpecsText, AsMap, AddSection, Split, Join, CleanSpecs;
    var x, y := SpecsText(m.min), SpecsText(m.max);
    SpecsRead(m.min);
    SpecsRead(m.max);
    var a, b := "min:" + x, "max:" + y;
    LineSplits(a, b);
    assert a == "min" + ":" + x && b == "max" + ":" + y;
    var empty: Sections := map[];
    SectionRead(empty, "min", m.min);
    SectionRead(empty["min" := AsMap(m.min)], "max", m.max);
    TwoSections(a, b, AsMap(m.min), AsMap(m.max));
  }

  lemma LineSplits(a: string, b: string)
    requires a != [] && b != [] && '/' !in a && '/' !in b
    ensures Split(Join([a, b], "/"), "/") == [a, b] && Clear(Join([a, b], "/"), "//")
  {
    FreeIsClear(a, '/');
    FreeIsClear(b, '/');
    SplitJoin([a, b], "/");
    JoinedSingly([a, b], '/');
    NoDoubleIsClear(Join([a, b], "/"), '/');
  }

  lemma TwoSections(a: string, b: string, x: Dict, y: Dict)
    requires AddSection(map[], a) == Ok(map["min" := x])
    requires AddSection(map["min" := x], b) == Ok(map["min" := x, "max" := y])
    ensures AddSections(map[], [a, b]) == Ok(map["min" := x, "max" := y])
  {
    hide AddSection;
    assert [a, b][1..] == [b] && [b][1..] == [];
    var one: Sections := map["min" := x];
    assert AddSections(one, [b]) == Ok(map["min" := x, "max" := y]);
  }

  function AllSections(ms: seq<MinMax>): (r: seq<Sections>)
    ensures |r| == |ms| && forall i | 0 <= i < |r| :: r[i] == AsSections(ms[i])
  {
    seq(|ms|, i requires 0 <= i < |ms| => AsSections(ms[i]))
  }

  lemma {:induction false} LinesRead(ms: seq<MinMax>)
    requires forall i | 0 <= i < |ms| :: CleanMinMax(ms[i])
    ensures ParseLines(MinMaxTexts(ms)) == Ok(AllSections(ms))
    ensures forall i | 0 <= i < |ms| :: Clear(MinMaxTexts(ms)[i], "//")
  {
    hide CleanMinMax, AddSections, Split, MinMaxText, AsSections;
    if ms != [] {
      var init, m := ms[..|ms| - 1], ms[|ms| - 1];
      LinesRead(init);
      LineRead(m);
      assert MinMaxTexts(ms)[..|ms| - 1] == MinMaxTexts(init);
      assert AllSections(ms) == AllSections(init) + [AsSections(m)];
    }
  }

  /**
   * The printed bounds read as the policy's bounds: those that are complete, in order, with the same
   * dictionaries, whatever the order of the items; no error is reported.
   */
  lemma PrintedBoundsReadBack(ms: seq<MinMax>)
    requires Complete(ms) != []
    requires forall m | m in Complete(ms) :: CleanSpecs(m.min) && CleanSpecs(m.max)
    ensures ParseLines(Split(BoundsText(Complete(ms)), "//")) == Ok(AllSections(Complete(ms)))
  {
    hide Complete, CleanSpecs, Split, Join, ParseLines, MinMaxText, AsSections;
    var bounds := Complete(ms);
    assert forall i | 0 <= i < |bounds| :: bounds[i] in bounds;
    LinesRead(bounds);
    SplitJoin(MinMaxTexts(bounds), "//");
  }
}
