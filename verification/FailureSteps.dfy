/** Failures reported by several goroutines at the same time.

    A failing test climbs to the tests above it as long as its failure travels, and then marks them
    from the top down, one at a time; meanwhile other tests fail, and tests start to keep their
    failures to themselves. */
module FailureSteps {
  import opened Options

  datatype Test = Test(parent: Option<nat>, retryable: bool, isolated: bool, failed: bool) {
    predicate Propagates() {
      parent.Some? && !retryable && !isolated
    }
  }

  /** A call of `Fail`: the tests it has climbed, from the one that fails up, and whether it is at
      the top and marks them. */
  datatype Failing = Failing(path: seq<nat>, marking: bool)

  datatype State = State(tests: seq<Test>, calls: seq<Failing>)

  datatype Action =
    | Spawn(parent: nat, retryable: bool)
    | Isolate(test: nat)
    | Fail(test: nat)
    | Climb(call: nat)
    | Mark(call: nat)

  function Init(): State {
    State([Test(None, false, false, false)], [])
  }

  function Top(f: Failing): nat
    requires f.path != []
  {
    f.path[|f.path| - 1]
  }

  predicate Enabled(s: State, a: Action) {
    match a
    case Spawn(parent, _) => parent < |s.tests|
    case Isolate(test) => test < |s.tests|
    case Fail(test) => test < |s.tests|
    case Climb(call) =>
      call < |s.calls| && !s.calls[call].marking && s.calls[call].path != [] && Top(s.calls[call]) < |s.tests|
    case Mark(call) =>
      call < |s.calls| && s.calls[call].marking && s.calls[call].path != [] && Top(s.calls[call]) < |s.tests|
  }

  function Step(s: State, a: Action): State
    requires Enabled(s, a)
  {
    match a
    case Spawn(parent, retryable) => s.(tests := s.tests + [Test(Some(parent), retryable, false, false)])
    case Isolate(test) => s.(tests := s.tests[test := s.tests[test].(isolated := true)])
    case Fail(test) => s.(calls := s.calls + [Failing([test], false)])
    case Climb(call) =>
      var f := s.calls[call];
      var top := s.tests[Top(f)];
      var f' := if top.Propagates() then f.(path := f.path + [top.parent.value]) else f.(marking := true);
      s.(calls := s.calls[call := f'])
    case Mark(call) =>
      var f := s.calls[call];
      State(s.tests[Top(f) := s.tests[Top(f)].(failed := true)],
            s.calls[call := f.(path := f.path[..|f.path| - 1])])
  }

  predicate Runs(s: State, actions: seq<Action>)
    decreases |actions|
  {
    actions == [] || (Enabled(s, actions[0]) && Runs(Step(s, actions[0]), actions[1..]))
  }

  function Exec(s: State, actions: seq<Action>): State
    requires Runs(s, actions)
    decreases |actions|
  {
    if actions == [] then s else Exec(Step(s, actions[0]), actions[1..])
  }

  /** The failure of a test has nowhere to go, or has got there. */
  predicate Settled(tests: seq<Test>, n: nat)
    requires n < |tests|
  {
    tests[n].Propagates() ==> tests[n].parent.value < |tests| && tests[tests[n].parent.value].failed
  }

  predicate Propagated(tests: seq<Test>, n: nat)
    requires n < |tests|
  {
    && (tests[n].parent.Some? ==> tests[n].parent.value < n)
    && (tests[n].failed ==> Settled(tests, n))
  }

  /** A call climbs from parent to parent, and marks from a top whose failure goes no further. */
  predicate CallOk(tests: seq<Test>, f: Failing) {
    && (forall i | 0 <= i < |f.path| :: f.path[i] < |tests|)
    && (forall i | 0 <= i < |f.path| - 1 :: tests[f.path[i]].parent == Some(f.path[i + 1]))
    && (!f.marking ==> f.path != [])
    && (f.marking && f.path != [] ==> Settled(tests, Top(f)))
  }

  predicate Good(s: State) {
    && (forall n | 0 <= n < |s.tests| :: Propagated(s.tests, n))
    && (forall c | 0 <= c < |s.calls| :: CallOk(s.tests, s.calls[c]))
  }

  /** Tests only gain: failures, isolation and new tests. */
  predicate Grown(before: seq<Test>, after: seq<Test>) {
    |before| <= |after| &&
    forall n | 0 <= n < |before| ::
      && after[n].parent == before[n].parent && after[n].retryable == before[n].retryable
      && (before[n].isolated ==> after[n].isolated) && (before[n].failed ==> after[n].failed)
  }

  lemma StepGrown(s: State, a: Action)
    requires Enabled(s, a)
    ensures Grown(s.tests, Step(s, a).tests)
  {
  }

  lemma CallStays(before: seq<Test>, after: seq<Test>, f: Failing)
    requires Grown(before, after) && CallOk(before, f)
    ensures CallOk(after, f)
  {
  }

  lemma StepTests(s: State, a: Action)
    requires Good(s) && Enabled(s, a)
    ensures forall n | 0 <= n < |Step(s, a).tests| :: Propagated(Step(s, a).tests, n)
  {
    var tests := Step(s, a).tests;
    StepGrown(s, a);
    if a.Mark? {
      assert CallOk(s.tests, s.calls[a.call]);
    }
    forall n | 0 <= n < |tests| ensures Propagated(tests, n) {
      if n < |s.tests| {
        assert Propagated(s.tests, n);
      }
    }
  }

  lemma StepCalls(s: State, a: Action)
    requires Good(s) && Enabled(s, a)
    ensures forall c | 0 <= c < |Step(s, a).calls| :: CallOk(Step(s, a).tests, Step(s, a).calls[c])
  {
    var s' := Step(s, a);
    StepGrown(s, a);
    forall c | 0 <= c < |s'.calls| ensures CallOk(s'.tests, s'.calls[c]) {
      if c < |s.calls| {
        assert CallOk(s.tests, s.calls[c]);
        CallStays(s.tests, s'.tests, s.calls[c]);
        if a == Climb(c) {
          assert Propagated(s.tests, Top(s.calls[c]));
        } else if a == Mark(c) {
          MarkedOk(s, c);
        }
      }
    }
  }

  /** After a mark, the next test down has a failed parent. */
  lemma MarkedOk(s: State, c: nat)
    requires Enabled(s, Mark(c)) && CallOk(s.tests, s.calls[c])
    requires CallOk(Step(s, Mark(c)).tests, s.calls[c])
    ensures CallOk(Step(s, Mark(c)).tests, Step(s, Mark(c)).calls[c])
  {
    var path := s.calls[c].path;
    if |path| > 1 {
      assert s.tests[path[|path| - 2]].parent == Some(path[|path| - 1]);
    }
  }

  lemma {:induction false} RunGood(s: State, actions: seq<Action>)
    requires Good(s) && Runs(s, actions)
    ensures Good(Exec(s, actions)) && Grown(s.tests, Exec(s, actions).tests)
    decreases |actions|
  {
    if actions != [] {
      StepTests(s, actions[0]);
      StepCalls(s, actions[0]);
      StepGrown(s, actions[0]);
      RunGood(Step(s, actions[0]), actions[1..]);
    }
  }

  /** In every reachable state, the parent of every failed test whose failures travel has failed too,
      even while failures are on their way. */
  lemma AlwaysPropagated(actions: seq<Action>, n: nat)
    requires Runs(Init(), actions) && n < |Exec(Init(), actions).tests|
    requires var t := Exec(Init(), actions).tests[n]; t.failed && t.Propagates()
    ensures var s := Exec(Init(), actions); var p := s.tests[n].parent.value;
      p < |s.tests| && s.tests[p].failed
  {
    RunGood(Init(), actions);
    assert Propagated(Exec(Init(), actions).tests, n);
  }

  // What calls of `Fail` come to.

  /** The tests that `Fail` was called for, by call. */
  function FailsOf(actions: seq<Action>): seq<nat> {
    if actions == [] then [] else (if actions[0].Fail? then [actions[0].test] else []) + FailsOf(actions[1..])
  }

  /** The call is on its way from its test, or has marked it. */
  predicate From(s: State, call: nat, test: nat) {
    && call < |s.calls| && test < |s.tests|
    && (if s.calls[call].path != [] then s.calls[call].path[0] == test
        else s.calls[call].marking && s.tests[test].failed)
  }

  lemma {:induction false} RunFrom(s: State, actions: seq<Action>, origins: seq<nat>)
    requires Runs(s, actions) && |origins| == |s.calls| && forall c | 0 <= c < |origins| :: From(s, c, origins[c])
    ensures var s', all := Exec(s, actions), origins + FailsOf(actions);
      |all| == |s'.calls| && forall c | 0 <= c < |all| :: From(s', c, all[c])
    decreases |actions|
  {
    if actions != [] {
      var next := Step(s, actions[0]);
      var more := origins + if actions[0].Fail? then [actions[0].test] else [];
      forall c | 0 <= c < |more| ensures From(next, c, more[c]) {
        if c < |origins| {
          assert From(s, c, origins[c]);
        }
      }
      RunFrom(next, actions[1..], more);
      assert more + FailsOf(actions[1..]) == origins + FailsOf(actions);
    }
  }

  /** When a call of `Fail` is over, the test that it was called for has failed. */
  lemma CallsMark(actions: seq<Action>, call: nat)
    requires Runs(Init(), actions) && call < |Exec(Init(), actions).calls|
    requires var f := Exec(Init(), actions).calls[call]; f.marking && f.path == []
    ensures call < |FailsOf(actions)|
    ensures var s := Exec(Init(), actions); FailsOf(actions)[call] < |s.tests| && s.tests[FailsOf(actions)[call]].failed
  {
    RunFrom(Init(), actions, []);
    assert [] + FailsOf(actions) == FailsOf(actions);
    assert From(Exec(Init(), actions), call, FailsOf(actions)[call]);
  }

  /** Test `n` is `x` or below it. */
  predicate Within(tests: seq<Test>, x: nat, n: nat)
    decreases n
  {
    n == x ||
    (n < |tests| && tests[n].parent.Some? && tests[n].parent.value < n && Within(tests, x, tests[n].parent.value))
  }

  lemma {:induction false} WithinStays(before: seq<Test>, after: seq<Test>, x: nat, n: nat)
    requires Grown(before, after) && n < |before|
    ensures Within(after, x, n) <==> Within(before, x, n)
    decreases n
  {
    if before[n].parent.Some? && before[n].parent.value < n {
      WithinStays(before, after, x, before[n].parent.value);
    }
  }

  /** All failures on their way are at or below `x`, and those that `Fail` is called for will be. */
  predicate Confined(s: State, x: nat) {
    x < |s.tests| && forall c, i | 0 <= c < |s.calls| && 0 <= i < |s.calls[c].path| ::
      s.calls[c].path[i] < |s.tests| && Within(s.tests, x, s.calls[c].path[i])
  }

  predicate FailsWithin(s: State, x: nat, a: Action) {
    a.Fail? ==> Within(s.tests, x, a.test)
  }

  lemma StepConfined(s: State, a: Action, x: nat)
    requires Good(s) && Enabled(s, a) && Confined(s, x) && !s.tests[x].Propagates() && FailsWithin(s, x, a)
    ensures Confined(Step(s, a), x) && !Step(s, a).tests[x].Propagates()
    ensures forall n | 0 <= n < |s.tests| && !Within(s.tests, x, n) ::
      Step(s, a).tests[n].failed == s.tests[n].failed
  {
    var s' := Step(s, a);
    StepGrown(s, a);
    forall c, i | 0 <= c < |s'.calls| && 0 <= i < |s'.calls[c].path|
      ensures s'.calls[c].path[i] < |s'.tests| && Within(s'.tests, x, s'.calls[c].path[i])
    {
      if a == Climb(c) && i == |s.calls[c].path| {
        var top := Top(s.calls[c]);
        assert Within(s.tests, x, top) && top != x && Propagated(s.tests, top);
        WithinStays(s.tests, s'.tests, x, s.tests[top].parent.value);
      } else if c < |s.calls| {
        WithinStays(s.tests, s'.tests, x, s.calls[c].path[i]);
      } else {
        WithinStays(s.tests, s'.tests, x, a.test);
      }
    }
  }

  /** Every failure that is called for lies at or below `x`. */
  predicate AllWithin(s: State, x: nat, actions: seq<Action>)
    requires Runs(s, actions)
    decreases |actions|
  {
    actions == [] || (FailsWithin(s, x, actions[0]) && AllWithin(Step(s, actions[0]), x, actions[1..]))
  }

  /** A test that keeps its failures to itself, or is an attempt, keeps all failures at or below it:
      no test elsewhere is marked because of them, however calls and marks interleave. */
  lemma {:induction false} KeepsFailures(s: State, actions: seq<Action>, x: nat)
    requires Good(s) && Runs(s, actions) && Confined(s, x) && !s.tests[x].Propagates() && AllWithin(s, x, actions)
    ensures |s.tests| <= |Exec(s, actions).tests|
    ensures forall n | 0 <= n < |s.tests| && !Within(s.tests, x, n) ::
      Exec(s, actions).tests[n].failed == s.tests[n].failed
    decreases |actions|
  {
    if actions != [] {
      var next := Step(s, actions[0]);
      StepTests(s, actions[0]);
      StepCalls(s, actions[0]);
      StepGrown(s, actions[0]);
      StepConfined(s, actions[0], x);
      KeepsFailures(next, actions[1..], x);
      forall n | 0 <= n < |s.tests| && !Within(s.tests, x, n)
        ensures Exec(s, actions).tests[n].failed == s.tests[n].failed
      {
        WithinStays(s.tests, next.tests, x, n);
      }
    }
  }
}
