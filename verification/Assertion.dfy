/** Expectations: compiled to a flat list of checks at paths, and matched directly. */
module Assertion {
  import opened Options

  datatype Value = Atom(id: nat) | Object(fields: map<string, Value>) | List(items: seq<Value>)

  /** A segment of a path; `Through` marks, in error messages, a left-arrow call on the way. */
  datatype Segment = Key(key: string) | At(index: nat) | Through(call: string)

  /** A leaf checks what is at its path, and fails where nothing is, unless it is `Direct`: those
      decide about an absent value themselves. What leaves check is up to the environment. */
  datatype Leaf = Check(id: nat) | Direct(id: nat)

  /** A key is plain text, or a left-arrow call with an expectation as its result. */
  datatype Name = Plain(name: string) | Arrow(text: string, result: Option<Expect>) | BadKey

  datatype Item = Item(name: Name, value: Expect)

  /** `Text` is a string, which is a template, with the expectation it evaluates to. */
  datatype Expect =
    | Single(leaf: Leaf)
    | MapOf(items: seq<Item>)
    | ListOf(elements: seq<Expect>)
    | Text(result: Option<Expect>)

  datatype Verdicts = Verdicts(check: (nat, Value) -> bool, direct: (nat, Option<Value>) -> bool) {
    predicate Passes(leaf: Leaf, got: Option<Value>) {
      match leaf
      case Check(id) => got.Some? && check(id, got.value)
      case Direct(id) => direct(id, got)
    }
  }

  /** A compiled check: where it looks, and what its path errors show. */
  datatype Assertion = Assertion(path: seq<Segment>, leaf: Leaf, shown: seq<Segment>)

  /** The error of a leaf: a path error, which shows left-arrow calls on the way, or the plain error of
      a query that found nothing, which names the path that was looked at. */
  datatype Report = Mismatch(shown: seq<Segment>) | Missing(path: seq<Segment>)

  function ReportOf(leaf: Leaf, got: Option<Value>, path: seq<Segment>, shown: seq<Segment>): Report {
    if leaf.Check? && got.None? then Missing(path) else Mismatch(shown)
  }

  function Down(got: Option<Value>, s: Segment): Option<Value> {
    if got.None? || s.Through? then None
    else if s.Key? then
      if got.value.Object? && s.key in got.value.fields then Some(got.value.fields[s.key]) else None
    else
      if got.value.List? && s.index < |got.value.items| then Some(got.value.items[s.index]) else None
  }

  function Extract(v: Value, path: seq<Segment>): Option<Value> {
    if path == [] then Some(v) else Down(Extract(v, path[..|path| - 1]), path[|path| - 1])
  }

  /** The checks of an expectation, in source order. */
  function Checks(e: Expect, path: seq<Segment>, shown: seq<Segment>): seq<Assertion>
    decreases e, 0
  {
    match e
    case Single(leaf) => [Assertion(path, leaf, shown)]
    case MapOf(items) => ItemChecks(items, path, shown)
    case ListOf(elements) => ElementChecks(elements, |elements|, path, shown)
    case Text(result) => if result.None? then [] else Checks(result.value, path, shown)
  }

  function ItemChecks(items: seq<Item>, path: seq<Segment>, shown: seq<Segment>): seq<Assertion>
    decreases items, 0
  {
    if items == [] then [] else ItemCheck(items[0], path, shown) + ItemChecks(items[1..], path, shown)
  }

  function ItemCheck(item: Item, path: seq<Segment>, shown: seq<Segment>): seq<Assertion>
    decreases item, 0
  {
    match item.name
    case Plain(name) => Checks(item.value, path + [Key(name)], shown + [Key(name)])
    case Arrow(text, result) =>
      if result.None? then [] else Checks(result.value, path, shown + [Through(text)])
    case BadKey => []
  }

  function ElementChecks(elements: seq<Expect>, n: nat, path: seq<Segment>, shown: seq<Segment>): seq<Assertion>
    requires n <= |elements|
    decreases elements, n
  {
    if n == 0 then []
    else
      ElementChecks(elements, n - 1, path, shown) + Checks(elements[n - 1], path + [At(n - 1)], shown + [At(n - 1)])
  }

  /** Every template can be executed, and a left-arrow call is the only item of its map. */
  predicate Buildable(e: Expect) {
    match e
    case Single(_) => true
    case MapOf(items) => forall item <- items :: ItemBuildable(item, |items|)
    case ListOf(elements) => forall x <- elements :: Buildable(x)
    case Text(result) => result.Some? && Buildable(result.value)
  }

  predicate ItemBuildable(item: Item, size: nat) {
    match item.name
    case Plain(_) => Buildable(item.value)
    case Arrow(_, result) => size == 1 && result.Some? && Buildable(result.value)
    case BadKey => false
  }

  /** The shown paths start with `from`, which is replaced. */
  predicate AllShow(checks: seq<Assertion>, from: seq<Segment>) {
    forall a <- checks :: from <= a.shown
  }

  function Moved(checks: seq<Assertion>, from: seq<Segment>, to: seq<Segment>): seq<Assertion>
    requires AllShow(checks, from)
  {
    if checks == [] then []
    else
      assert checks[0] in checks && forall a <- checks[1..] :: a in checks;
      [checks[0].(shown := to + checks[0].shown[|from|..])] + Moved(checks[1..], from, to)
  }

  lemma ShowConcat(a: seq<Assertion>, b: seq<Assertion>, from: seq<Segment>)
    requires AllShow(a, from) && AllShow(b, from)
    ensures AllShow(a + b, from)
  {
  }

  lemma {:induction false} MovedConcat(a: seq<Assertion>, b: seq<Assertion>, from: seq<Segment>, to: seq<Segment>)
    requires AllShow(a, from) && AllShow(b, from)
    ensures AllShow(a + b, from) && Moved(a + b, from, to) == Moved(a, from, to) + Moved(b, from, to)
  {
    ShowConcat(a, b, from);
    if a == [] {
      assert a + b == b;
    } else {
      TailShows(a, from);
      MovedConcat(a[1..], b, from, to);
      assert (a + b)[0] == a[0] && (a + b)[1..] == a[1..] + b;
      var head, tail, rest := [a[0].(shown := to + a[0].shown[|from|..])], Moved(a[1..], from, to), Moved(b, from, to);
      assert head + (tail + rest) == head + tail + rest;
    }
  }

  lemma TailShows(a: seq<Assertion>, from: seq<Segment>)
    requires a != [] && AllShow(a, from)
    ensures from <= a[0].shown && AllShow(a[1..], from)
  {
    assert a[0] in a && forall x <- a[1..] :: x in a;
  }

  lemma {:induction false} MovedDeeper(checks: seq<Assertion>, from: seq<Segment>, to: seq<Segment>, s: Segment)
    requires AllShow(checks, from + [s])
    ensures AllShow(checks, from) && Moved(checks, from, to) == Moved(checks, from + [s], to + [s])
  {
    if checks != [] {
      var shown := checks[0].shown;
      assert checks[0] in checks && forall x <- checks[1..] :: x in checks;
      assert from + [s] <= shown;
      assert shown[|from|..] == [s] + shown[|from| + 1..];
      assert to + shown[|from|..] == (to + [s]) + shown[|from| + 1..];
      MovedDeeper(checks[1..], from, to, s);
    }
  }

  /** Where checks look does not depend on what they show, which is only put in front. */
  lemma {:induction false} ChecksMoved(e: Expect, path: seq<Segment>, from: seq<Segment>, to: seq<Segment>)
    ensures AllShow(Checks(e, path, from), from)
    ensures Checks(e, path, to) == Moved(Checks(e, path, from), from, to)
    decreases e, 0
  {
    match e
    case Single(leaf) =>
      assert Checks(e, path, from)[1..] == [];
      assert to + from[|from|..] == to;
    case MapOf(items) => ItemsMoved(items, path, from, to);
    case ListOf(elements) => ElementsMoved(elements, |elements|, path, from, to);
    case Text(result) => if result.Some? { ChecksMoved(result.value, path, from, to); }
  }

  lemma {:induction false} ItemsMoved(items: seq<Item>, path: seq<Segment>, from: seq<Segment>, to: seq<Segment>)
    ensures AllShow(ItemChecks(items, path, from), from)
    ensures ItemChecks(items, path, to) == Moved(ItemChecks(items, path, from), from, to)
    decreases items, 0
  {
    if items != [] {
      ItemMoved(items[0], path, from, to);
      ItemsMoved(items[1..], path, from, to);
      MovedConcat(ItemCheck(items[0], path, from), ItemChecks(items[1..], path, from), from, to);
    }
  }

  lemma {:induction false} ItemMoved(item: Item, path: seq<Segment>, from: seq<Segment>, to: seq<Segment>)
    ensures AllShow(ItemCheck(item, path, from), from)
    ensures ItemCheck(item, path, to) == Moved(ItemCheck(item, path, from), from, to)
    decreases item, 0
  {
    match item.name
    case Plain(name) =>
      ChecksMoved(item.value, path + [Key(name)], from + [Key(name)], to + [Key(name)]);
      MovedDeeper(ItemCheck(item, path, from), from, to, Key(name));
    case Arrow(text, result) =>
      if result.Some? {
        ChecksMoved(result.value, path, from + [Through(text)], to + [Through(text)]);
        MovedDeeper(ItemCheck(item, path, from), from, to, Through(text));
      }
    case BadKey =>
  }

  lemma {:induction false} ElementsMoved(elements: seq<Expect>, n: nat, path: seq<Segment>,
                                         from: seq<Segment>, to: seq<Segment>)
    requires n <= |elements|
    ensures AllShow(ElementChecks(elements, n, path, from), from)
    ensures ElementChecks(elements, n, path, to) == Moved(ElementChecks(elements, n, path, from), from, to)
    decreases elements, n
  {
    if n > 0 {
      var s, last := At(n - 1), elements[n - 1];
      ElementsMoved(elements, n - 1, path, from, to);
      ChecksMoved(last, path + [s], from + [s], to + [s]);
      MovedDeeper(Checks(last, path + [s], from + [s]), from, to, s);
      MovedConcat(ElementChecks(elements, n - 1, path, from), Checks(last, path + [s], from + [s]), from, to);
    }
  }

  /** Compiles an expectation at a path. */
  method Build(path: seq<Segment>, e: Expect) returns (r: Option<seq<Assertion>>)
    ensures r == if Buildable(e) then Some(Checks(e, path, path)) else None
    decreases e, 0
  {
    match e
    case Single(leaf) => r := Some([Assertion(path, leaf, path)]);
    case MapOf(items) => r := BuildMap(path, items);
    case ListOf(elements) => r := BuildList(path, elements);
    case Text(result) =>
      if result.None? {
        return None;
      }
      r := Build(path, result.value);
  }

  method BuildMap(path: seq<Segment>, items: seq<Item>) returns (r: Option<seq<Assertion>>)
    ensures r == if forall item <- items :: ItemBuildable(item, |items|) then Some(ItemChecks(items, path, path))
                 else None
    decreases items, 1
  {
    var assertions := [];
    for i := 0 to |items|
      invariant ItemChecks(items, path, path) == assertions + ItemChecks(items[i..], path, path)
      invariant forall j | 0 <= j < i :: ItemBuildable(items[j], |items|)
    {
      var checks := BuildItem(path, items[i], |items|);
      if checks.None? {
        assert items[i] in items;
        return None;
      }
      assertions := assertions + checks.value;
      assert items[i..][1..] == items[i + 1..];
    }
    assert items[|items|..] == [] && assertions + [] == assertions;
    r := Some(assertions);
  }

  method BuildItem(path: seq<Segment>, item: Item, size: nat) returns (r: Option<seq<Assertion>>)
    ensures r == if ItemBuildable(item, size) then Some(ItemCheck(item, path, path)) else None
    decreases item, 0
  {
    match item.name
    case BadKey => r := None;
    case Plain(name) => r := Build(path + [Key(name)], item.value);
    case Arrow(text, result) =>
      if size != 1 || result.None? {
        return None;
      }
      r := Build(path, result.value);
      if r.Some? {
        ChecksMoved(result.value, path, path, path + [Through(text)]);
        var checks := PatchAll(r.value, path, text);
        r := Some(checks);
      }
  }

  /** Replaces every check by one that shows the left-arrow call. */
  method PatchAll(checks: seq<Assertion>, path: seq<Segment>, text: string) returns (patched: seq<Assertion>)
    requires AllShow(checks, path)
    ensures patched == Moved(checks, path, path + [Through(text)])
  {
    patched := checks;
    for i := 0 to |checks|
      invariant |patched| == |checks| && patched[i..] == checks[i..]
      invariant AllShow(checks[..i], path) && patched[..i] == Moved(checks[..i], path, path + [Through(text)])
    {
      var a := patched[i];
      assert patched[i..][0] == checks[i..][0] && checks[i] in checks;
      ghost var before := patched;
      patched := patched[i := a.(shown := path + [Through(text)] + a.shown[|path|..])];
      assert checks[..i + 1] == checks[..i] + [checks[i]];
      assert [checks[i]][1..] == [];
      MovedConcat(checks[..i], [checks[i]], path, path + [Through(text)]);
      assert patched[..i + 1] == before[..i] + [patched[i]];
      assert patched[i + 1..] == before[i..][1..] == checks[i..][1..];
    }
    assert checks[..|checks|] == checks && patched[..|checks|] == patched;
  }

  method BuildList(path: seq<Segment>, elements: seq<Expect>) returns (r: Option<seq<Assertion>>)
    ensures r == if forall x <- elements :: Buildable(x) then Some(ElementChecks(elements, |elements|, path, path))
                 else None
    decreases elements, 1
  {
    var assertions := [];
    for i := 0 to |elements|
      invariant assertions == ElementChecks(elements, i, path, path)
      invariant forall j | 0 <= j < i :: Buildable(elements[j])
    {
      var checks := Build(path + [At(i)], elements[i]);
      if checks.None? {
        assert elements[i] in elements;
        return None;
      }
      assertions := assertions + checks.value;
    }
    r := Some(assertions);
  }

  /** The errors of the checks that fail on a value, in order. */
  function Errors(vd: Verdicts, checks: seq<Assertion>, v: Value): seq<Report> {
    if checks == [] then []
    else
      var a := checks[|checks| - 1];
      var got := Extract(v, a.path);
      Errors(vd, checks[..|checks| - 1], v)
      + if vd.Passes(a.leaf, got) then [] else [ReportOf(a.leaf, got, a.path, a.shown)]
  }

  /** Runs every check. */
  method Assert(vd: Verdicts, checks: seq<Assertion>, v: Value) returns (errs: seq<Report>)
    ensures errs == Errors(vd, checks, v)
  {
    errs := [];
    for i := 0 to |checks|
      invariant errs == Errors(vd, checks[..i], v)
    {
      assert checks[..i + 1][..i] == checks[..i];
      var a := checks[i];
      var got := Extract(v, a.path);
      if !vd.Passes(a.leaf, got) {
        errs := errs + [ReportOf(a.leaf, got, a.path, a.shown)];
      }
    }
    assert checks[..|checks|] == checks;
  }

  /** Direct matching of what was found, or not, at a path against an expectation: the errors of the
      leaves that fail. */
  function Failing(vd: Verdicts, e: Expect, got: Option<Value>, path: seq<Segment>, shown: seq<Segment>): seq<Report>
    decreases e, 0
  {
    match e
    case Single(leaf) => if vd.Passes(leaf, got) then [] else [ReportOf(leaf, got, path, shown)]
    case MapOf(items) => FailingItems(vd, items, got, path, shown)
    case ListOf(elements) => FailingElements(vd, elements, |elements|, got, path, shown)
    case Text(result) => if result.None? then [] else Failing(vd, result.value, got, path, shown)
  }

  function FailingItems(vd: Verdicts, items: seq<Item>, got: Option<Value>,
                        path: seq<Segment>, shown: seq<Segment>): seq<Report>
    decreases items, 0
  {
    if items == [] then []
    else FailingItem(vd, items[0], got, path, shown) + FailingItems(vd, items[1..], got, path, shown)
  }

  function FailingItem(vd: Verdicts, item: Item, got: Option<Value>,
                       path: seq<Segment>, shown: seq<Segment>): seq<Report>
    decreases item, 0
  {
    match item.name
    case Plain(name) => Failing(vd, item.value, Down(got, Key(name)), path + [Key(name)], shown + [Key(name)])
    case Arrow(text, result) =>
      if result.None? then [] else Failing(vd, result.value, got, path, shown + [Through(text)])
    case BadKey => []
  }

  function FailingElements(vd: Verdicts, elements: seq<Expect>, n: nat, got: Option<Value>,
                           path: seq<Segment>, shown: seq<Segment>)
    : seq<Report>
    requires n <= |elements|
    decreases elements, n
  {
    if n == 0 then []
    else
      FailingElements(vd, elements, n - 1, got, path, shown)
      + Failing(vd, elements[n - 1], Down(got, At(n - 1)), path + [At(n - 1)], shown + [At(n - 1)])
  }

  /** A value matches: maps ask for the listed keys only, lists for the listed first elements, and
      empty maps and lists for nothing. */
  predicate Matches(vd: Verdicts, e: Expect, got: Option<Value>)
    decreases e, 0
  {
    match e
    case Single(leaf) => vd.Passes(leaf, got)
    case MapOf(items) => forall item <- items :: ItemMatches(vd, item, got)
    case ListOf(elements) => forall i | 0 <= i < |elements| :: Matches(vd, elements[i], Down(got, At(i)))
    case Text(result) => result.Some? ==> Matches(vd, result.value, got)
  }

  predicate ItemMatches(vd: Verdicts, item: Item, got: Option<Value>)
    decreases item, 0
  {
    match item.name
    case Plain(name) => Matches(vd, item.value, Down(got, Key(name)))
    case Arrow(_, result) => result.Some? ==> Matches(vd, result.value, got)
    case BadKey => true
  }

  lemma {:induction false} ErrorsConcat(vd: Verdicts, a: seq<Assertion>, b: seq<Assertion>, v: Value)
    ensures Errors(vd, a + b, v) == Errors(vd, a, v) + Errors(vd, b, v)
    decreases |b|
  {
    if b == [] {
      assert a + b == a;
    } else {
      var k := |b| - 1;
      assert (a + b)[..|a + b| - 1] == a + b[..k];
      ErrorsConcat(vd, a, b[..k], v);
    }
  }

  lemma ExtractDown(v: Value, path: seq<Segment>, s: Segment)
    ensures Extract(v, path + [s]) == Down(Extract(v, path), s)
  {
    assert (path + [s])[..|path|] == path;
  }

  /** The flat checks fail where direct matching does, in the same order and with the same paths. */
  lemma {:induction false} ChecksMeanMatching(vd: Verdicts, e: Expect, v: Value, path: seq<Segment>,
                                              shown: seq<Segment>)
    ensures Errors(vd, Checks(e, path, shown), v) == Failing(vd, e, Extract(v, path), path, shown)
    decreases e, 0
  {
    match e
    case Single(leaf) =>
      assert Checks(e, path, shown)[..0] == [];
    case MapOf(items) => ItemsMeanMatching(vd, items, v, path, shown);
    case ListOf(elements) => ElementsMeanMatching(vd, elements, |elements|, v, path, shown);
    case Text(result) => if result.Some? { ChecksMeanMatching(vd, result.value, v, path, shown); }
  }

  lemma {:induction false} ItemsMeanMatching(vd: Verdicts, items: seq<Item>, v: Value, path: seq<Segment>,
                                             shown: seq<Segment>)
    ensures Errors(vd, ItemChecks(items, path, shown), v) == FailingItems(vd, items, Extract(v, path), path, shown)
    decreases items, 0
  {
    if items != [] {
      ItemMeansMatching(vd, items[0], v, path, shown);
      ItemsMeanMatching(vd, items[1..], v, path, shown);
      ErrorsConcat(vd, ItemCheck(items[0], path, shown), ItemChecks(items[1..], path, shown), v);
    }
  }

  lemma {:induction false} ItemMeansMatching(vd: Verdicts, item: Item, v: Value, path: seq<Segment>,
                                             shown: seq<Segment>)
    ensures Errors(vd, ItemCheck(item, path, shown), v) == FailingItem(vd, item, Extract(v, path), path, shown)
    decreases item, 0
  {
    match item.name
    case Plain(name) =>
      ExtractDown(v, path, Key(name));
      ChecksMeanMatching(vd, item.value, v, path + [Key(name)], shown + [Key(name)]);
    case Arrow(text, result) =>
      if result.Some? { ChecksMeanMatching(vd, result.value, v, path, shown + [Through(text)]); }
    case BadKey =>
  }

  lemma {:induction false} ElementsMeanMatching(vd: Verdicts, elements: seq<Expect>, n: nat, v: Value,
                                                path: seq<Segment>, shown: seq<Segment>)
    requires n <= |elements|
    ensures Errors(vd, ElementChecks(elements, n, path, shown), v)
      == FailingElements(vd, elements, n, Extract(v, path), path, shown)
    decreases elements, n
  {
    if n > 0 {
      var s := At(n - 1);
      var before, last := ElementChecks(elements, n - 1, path, shown), Checks(elements[n - 1], path + [s], shown + [s]);
      ExtractDown(v, path, s);
      ElementsMeanMatching(vd, elements, n - 1, v, path, shown);
      ChecksMeanMatching(vd, elements[n - 1], v, path + [s], shown + [s]);
      ErrorsConcat(vd, before, last, v);
      assert ElementChecks(elements, n, path, shown) == before + last;
    }
  }

  /** No leaf fails exactly when the value matches. */
  lemma {:induction false} NoneFailing(vd: Verdicts, e: Expect, got: Option<Value>,
                                       path: seq<Segment>, shown: seq<Segment>)
    ensures Failing(vd, e, got, path, shown) == [] <==> Matches(vd, e, got)
    decreases e, 0
  {
    match e
    case Single(_) =>
    case MapOf(items) => NoneFailingItems(vd, items, got, path, shown);
    case ListOf(elements) => NoneFailingElements(vd, elements, |elements|, got, path, shown);
    case Text(result) => if result.Some? { NoneFailing(vd, result.value, got, path, shown); }
  }

  lemma {:induction false} NoneFailingItems(vd: Verdicts, items: seq<Item>, got: Option<Value>,
                                            path: seq<Segment>, shown: seq<Segment>)
    ensures FailingItems(vd, items, got, path, shown) == [] <==> forall item <- items :: ItemMatches(vd, item, got)
    decreases items, 0
  {
    if items != [] {
      var item := items[0];
      NoneFailingItem(vd, items[0], got, path, shown);
      NoneFailingItems(vd, items[1..], got, path, shown);
      assert forall x <- items :: x == item || x in items[1..];
      assert item in items && forall x <- items[1..] :: x in items;
    }
  }

  lemma {:induction false} NoneFailingItem(vd: Verdicts, item: Item, got: Option<Value>,
                                           path: seq<Segment>, shown: seq<Segment>)
    ensures FailingItem(vd, item, got, path, shown) == [] <==> ItemMatches(vd, item, got)
    decreases item, 0
  {
    match item.name
    case Plain(name) => NoneFailing(vd, item.value, Down(got, Key(name)), path + [Key(name)], shown + [Key(name)]);
    case Arrow(text, result) => if result.Some? { NoneFailing(vd, result.value, got, path, shown + [Through(text)]); }
    case BadKey =>
  }

  lemma {:induction false} NoneFailingElements(vd: Verdicts, elements: seq<Expect>, n: nat, got: Option<Value>,
                                               path: seq<Segment>, shown: seq<Segment>)
    requires n <= |elements|
    ensures FailingElements(vd, elements, n, got, path, shown) == []
      <==> forall i | 0 <= i < n :: Matches(vd, elements[i], Down(got, At(i)))
    decreases elements, n
  {
    if n > 0 {
      NoneFailingElements(vd, elements, n - 1, got, path, shown);
      NoneFailing(vd, elements[n - 1], Down(got, At(n - 1)), path + [At(n - 1)], shown + [At(n - 1)]);
    }
  }

  /** A leaf at a place where nothing is fails unless it is direct, and then it is missing; all others
      are asked. */
  lemma LeavesMean(vd: Verdicts, leaf: Leaf, got: Option<Value>, path: seq<Segment>, shown: seq<Segment>)
    ensures leaf.Check? && got.None? ==> Failing(vd, Single(leaf), got, path, shown) == [Missing(path)]
    ensures leaf.Check? && got.Some? ==>
      Failing(vd, Single(leaf), got, path, shown) == if vd.check(leaf.id, got.value) then [] else [Mismatch(shown)]
    ensures leaf.Direct? ==>
      Failing(vd, Single(leaf), got, path, shown) == if vd.direct(leaf.id, got) then [] else [Mismatch(shown)]
  {
  }

  lemma OneItem(vd: Verdicts, item: Item, got: Option<Value>, path: seq<Segment>, shown: seq<Segment>)
    ensures FailingItems(vd, [item], got, path, shown) == FailingItem(vd, item, got, path, shown)
  {
    assert [item][1..] == [] && FailingItems(vd, [], got, path, shown) == [];
  }

  /** An expectation for a key looks at the field of that name, and at nothing where there is none. */
  lemma KeysMean(vd: Verdicts, name: string, e: Expect, got: Option<Value>, path: seq<Segment>, shown: seq<Segment>)
    ensures Failing(vd, MapOf([Item(Plain(name), e)]), got, path, shown) ==
      Failing(vd, e, if got.Some? && got.value.Object? && name in got.value.fields
                     then Some(got.value.fields[name]) else None, path + [Key(name)], shown + [Key(name)])
  {
    OneItem(vd, Item(Plain(name), e), got, path, shown);
  }

  /** An expectation behind a left-arrow call looks at the same place, and shows the call. */
  lemma ArrowsMean(vd: Verdicts, text: string, e: Expect, value: Expect, got: Option<Value>,
                   path: seq<Segment>, shown: seq<Segment>)
    ensures Failing(vd, MapOf([Item(Arrow(text, Some(e)), value)]), got, path, shown) ==
      Failing(vd, e, got, path, shown + [Through(text)])
  {
    OneItem(vd, Item(Arrow(text, Some(e)), value), got, path, shown);
  }

  /** The items of a map count one after the other. */
  lemma {:induction false} ItemsInOrder(vd: Verdicts, a: seq<Item>, b: seq<Item>, got: Option<Value>,
                                        path: seq<Segment>, shown: seq<Segment>)
    ensures Failing(vd, MapOf(a + b), got, path, shown) ==
      Failing(vd, MapOf(a), got, path, shown) + Failing(vd, MapOf(b), got, path, shown)
  {
    if a == [] {
      assert a + b == b;
    } else {
      assert (a + b)[1..] == a[1..] + b;
      ItemsInOrder(vd, a[1..], b, got, path, shown);
    }
  }

  /** The expectation at a place of a list, counted from zero, looks at the element there. */
  lemma ElementsMean(vd: Verdicts, elements: seq<Expect>, e: Expect, got: Option<Value>,
                     path: seq<Segment>, shown: seq<Segment>)
    ensures var n := |elements|;
      Failing(vd, ListOf(elements + [e]), got, path, shown) ==
      Failing(vd, ListOf(elements), got, path, shown)
      + Failing(vd, e, if got.Some? && got.value.List? && n < |got.value.items|
                       then Some(got.value.items[n]) else None, path + [At(n)], shown + [At(n)])
    ensures Failing(vd, ListOf([]), got, path, shown) == []
  {
    SameElements(vd, elements, elements + [e], |elements|, got, path, shown);
  }

  lemma {:induction false} SameElements(vd: Verdicts, a: seq<Expect>, b: seq<Expect>, n: nat, got: Option<Value>,
                                        path: seq<Segment>, shown: seq<Segment>)
    requires n <= |a| && n <= |b| && a[..n] == b[..n]
    ensures FailingElements(vd, a, n, got, path, shown) == FailingElements(vd, b, n, got, path, shown)
    decreases n
  {
    if n > 0 {
      assert a[..n][..n - 1] == a[..n - 1] && b[..n][..n - 1] == b[..n - 1];
      assert a[n - 1] == a[..n][n - 1] == b[n - 1];
      SameElements(vd, a, b, n - 1, got, path, shown);
    }
  }

  /** Building and asserting: an expectation that can be built reports the leaves that do not match,
      each once and in source order, and reports nothing exactly when the value matches. */
  method BuildAndAssert(vd: Verdicts, e: Expect, v: Value) returns (built: bool, errs: seq<Report>)
    ensures built <==> Buildable(e)
    ensures built ==> errs == Failing(vd, e, Some(v), [], [])
    ensures built ==> (errs == [] <==> Matches(vd, e, Some(v)))
  {
    var checks := Build([], e);
    built, errs := checks.Some?, [];
    if built {
      errs := Assert(vd, checks.value, v);
      ChecksMeanMatching(vd, e, v, [], []);
      NoneFailing(vd, e, Some(v), [], []);
    }
  }
}
