/** Parallel subtests below a teardown of a parallel test break the bound on tests that run at once.

    A parallel test gives its slot up before its teardowns run. A teardown with a parallel subtest
    gives a slot up again, which nobody took: the counter drops below the number of tests on a slot. */
module SchedulerOversubscription {
  import opened Context
  import opened Scheduler
  import opened SchedulerSlots

  ghost predicate Reached(maxParallel: int, s: State) {
    exists actions :: Runs(Init(maxParallel), actions) && Exec(Init(maxParallel), actions) == s
  }

  lemma {:induction false} RunOn(s: State, actions: seq<Action>, a: Action)
    requires Runs(s, actions) && Enabled(Exec(s, actions), a)
    ensures Runs(s, actions + [a]) && Exec(s, actions + [a]) == Step(Exec(s, actions), a)
    decreases |actions|
  {
    if actions == [] {
      assert actions + [a] == [a];
    } else {
      assert (actions + [a])[1..] == actions[1..] + [a];
      RunOn(Step(s, actions[0]), actions[1..], a);
    }
  }

  lemma Reach(s: State, a: Action) returns (s': State)
    requires Reached(1, s) && Enabled(s, a)
    ensures Reached(1, s') && s' == Step(s, a)
  {
    var actions :| Runs(Init(1), actions) && Exec(Init(1), actions) == s;
    RunOn(Init(1), actions, a);
    s' := Step(s, a);
  }

  /** A parked test passes the barrier and takes a free slot. */
  lemma Starts(s: State, c: nat) returns (s': State)
    requires Reached(1, s) && s.At(c, AwaitBarrier) && s.slots.maxParallel > s.slots.running
    requires s.Has(s.nodes[c].parent) && s.nodes[s.nodes[c].parent].barrierClosed
    ensures Reached(1, s') && s'.slots == s.slots.(running := s.slots.running + 1)
    ensures s'.nodes == s.nodes[c := s.nodes[c].(phase := Body)]
  {
    s' := Reach(s, PassBarrier(c));
    s' := Reach(s', Enter(c));
  }

  predicate TestStarts(s: State) {
    && s.slots == Slots(1, 1, 0)
    && s.nodes == [
         Node(0, Root, false, AwaitSubtest(1), [], [], [], false, true),
         Node(0, Subtest, false, Body, [], ["teardown"], [], false, true)]
  }

  lemma ToTestStarts() returns (s': State)
    ensures Reached(1, s') && TestStarts(s')
  {
    s' := Init(1);
    assert Runs(s', []) && Exec(s', []) == s';
    s' := Reach(s', Spawn(0));
    s' := Reach(s', AddTeardown(1, "teardown"));
    assert [] + ["teardown"] == ["teardown"];
  }

  predicate TestParks(s: State) {
    && s.slots == Slots(1, 1, 0)
    && s.nodes == [
         Node(0, Root, false, Body, [1], [], [], false, true),
         Node(0, Subtest, true, AwaitBarrier, [], ["teardown"], [], false, true)]
  }

  lemma ToTestParks(s: State) returns (s': State)
    requires Reached(1, s) && TestStarts(s)
    ensures Reached(1, s') && TestParks(s')
  {
    s' := s;
    s' := Reach(s', CallParallel(1));
    s' := Reach(s', Park(1));
    assert [] + [1] == [1];
  }

  predicate MainEnds(s: State) {
    && s.slots == Slots(1, 1, 0)
    && s.nodes == [
         Node(0, Root, false, Releasing(true), [1], [], [], false, true),
         Node(0, Subtest, true, AwaitBarrier, [], ["teardown"], [], false, true)]
  }

  lemma ToMainEnds(s: State) returns (s': State)
    requires Reached(1, s) && TestParks(s)
    ensures Reached(1, s') && MainEnds(s')
  {
    assert 1 in s.nodes[0].children;
    s' := EndsWithSubtests(s, 0, 1);
  }

  predicate MainWaits(s: State) {
    && s.slots == Slots(1, 0, 0)
    && s.nodes == [
         Node(0, Root, false, AwaitSubtests, [1], [], [], true, true),
         Node(0, Subtest, true, AwaitBarrier, [], ["teardown"], [], false, true)]
  }

  lemma ToMainWaits(s: State) returns (s': State)
    requires Reached(1, s) && MainEnds(s)
    ensures Reached(1, s') && MainWaits(s')
  {
    s' := s;
    s' := Reach(s', ReleaseSlot(0));
    s' := Reach(s', OpenBarrier(0));
  }

  predicate TestRuns(s: State) {
    && s.slots == Slots(1, 1, 0)
    && s.nodes == [
         Node(0, Root, false, AwaitSubtests, [1], [], [], true, true),
         Node(0, Subtest, true, Releasing(false), [], ["teardown"], [], false, true)]
  }

  lemma ToTestRuns(s: State) returns (s': State)
    requires Reached(1, s) && MainWaits(s)
    ensures Reached(1, s') && TestRuns(s')
  {
    s' := Starts(s, 1);
    s' := Reach(s', EndBody(1));
    s' := Reach(s', Collect(1));
  }

  predicate TeardownRuns(s: State) {
    && s.slots == Slots(1, 0, 0)
    && s.nodes == [
         Node(0, Root, false, AwaitSubtests, [1], [], [], true, true),
         Node(0, Subtest, true, AwaitTeardown(0, 2), [], ["teardown"], [], false, true),
         Node(1, Teardown, false, AwaitSubtest(3), [], [], [], false, false),
         Node(2, Subtest, true, Parking, [], [], [], false, false)]
  }

  lemma ToTeardownStarts(s: State) returns (s': State)
    requires Reached(1, s) && TestRuns(s)
    ensures Reached(1, s') && s'.slots == Slots(1, 0, 0)
    ensures s'.nodes == [s.nodes[0], s.nodes[1].(phase := AwaitTeardown(0, 2)), Child(1, Teardown, false)]
  {
    s' := ToReleased(s);
    s' := Reach(s', NextTeardown(1));
  }

  lemma ToReleased(s: State) returns (s': State)
    requires Reached(1, s) && TestRuns(s)
    ensures Reached(1, s') && s'.slots == Slots(1, 0, 0)
    ensures s'.nodes == s.nodes[1 := s.nodes[1].(phase := Teardowns(1))]
  {
    s' := Reach(s, ReleaseSlot(1));
  }

  lemma ToTeardownRuns(s: State) returns (s': State)
    requires Reached(1, s) && TestRuns(s)
    ensures Reached(1, s') && TeardownRuns(s')
  {
    s' := ToTeardownStarts(s);
    s' := Reach(s', Spawn(2));
    s' := Reach(s', CallParallel(3));
  }

  predicate TeardownForks(s: State) {
    && s.slots == Slots(1, 0, 0)
    && s.nodes == [
         Node(0, Root, false, AwaitSubtests, [1], [], [], true, true),
         Node(0, Subtest, true, AwaitTeardown(0, 2), [], ["teardown"], [], false, true),
         Node(1, Teardown, false, AwaitSubtest(4), [3], [], [], false, false),
         Node(2, Subtest, true, AwaitBarrier, [], [], [], false, true),
         Node(2, Subtest, true, Parking, [], [], [], false, false)]
  }

  lemma ToTeardownForks(s: State) returns (s': State)
    requires Reached(1, s) && TeardownRuns(s)
    ensures Reached(1, s') && TeardownForks(s')
  {
    s' := s;
    s' := Reach(s', Park(3));
    assert [] + [3] == [3];
    s' := Reach(s', Spawn(2));
    s' := Reach(s', CallParallel(4));
  }

  predicate TeardownEnds(s: State) {
    && s.slots == Slots(1, 0, 0)
    && s.nodes == [
         Node(0, Root, false, AwaitSubtests, [1], [], [], true, true),
         Node(0, Subtest, true, AwaitTeardown(0, 2), [], ["teardown"], [], false, true),
         Node(1, Teardown, false, Releasing(true), [3, 4], [], [], false, false),
         Node(2, Subtest, true, AwaitBarrier, [], [], [], false, true),
         Node(2, Subtest, true, AwaitBarrier, [], [], [], false, true)]
  }

  lemma ToTeardownEnds(s: State) returns (s': State)
    requires Reached(1, s) && TeardownForks(s)
    ensures Reached(1, s') && TeardownEnds(s')
  {
    s' := ToTeardownGoesOn(s);
    s' := EndsWithSubtests(s', 2, 3);
  }

  /** A body ends, of a test that has seen the parallel subtest `c`. */
  lemma EndsWithSubtests(s: State, n: nat, c: nat) returns (s': State)
    requires Reached(1, s) && s.At(n, Body) && c < |s.nodes| && s.nodes[c].isParallel
    requires c in s.nodes[n].children
    ensures Reached(1, s') && s'.slots == s.slots && s'.nodes == s.nodes[n := s.nodes[n].(phase := Releasing(true))]
  {
    s' := Reach(s, EndBody(n));
    assert c in s'.nodes[n].children && s'.HasParallelChild(n);
    s' := Reach(s', Collect(n));
  }

  lemma ToTeardownGoesOn(s: State) returns (s': State)
    requires Reached(1, s) && TeardownForks(s)
    ensures Reached(1, s') && s'.slots == s.slots
    ensures s'.nodes == s.nodes[2 := s.nodes[2].(phase := Body, children := [3, 4])]
                               [4 := s.nodes[4].(phase := AwaitBarrier, onSlot := true)]
  {
    s' := Reach(s, Park(4));
    assert [3] + [4] == [3, 4];
  }

  predicate TeardownWaits(s: State) {
    && s.slots == Slots(1, -1, 0)
    && s.nodes == [
         Node(0, Root, false, AwaitSubtests, [1], [], [], true, true),
         Node(0, Subtest, true, AwaitTeardown(0, 2), [], ["teardown"], [], false, true),
         Node(1, Teardown, false, AwaitSubtests, [3, 4], [], [], true, false),
         Node(2, Subtest, true, AwaitBarrier, [], [], [], false, true),
         Node(2, Subtest, true, AwaitBarrier, [], [], [], false, true)]
  }

  lemma ToTeardownWaits(s: State) returns (s': State)
    requires Reached(1, s) && TeardownEnds(s)
    ensures Reached(1, s') && TeardownWaits(s')
  {
    s' := s;
    s' := Reach(s', ReleaseSlot(2));
    s' := Reach(s', OpenBarrier(2));
  }

  predicate BothRun(s: State) {
    && s.slots == Slots(1, 1, 0)
    && s.nodes == [
         Node(0, Root, false, AwaitSubtests, [1], [], [], true, true),
         Node(0, Subtest, true, AwaitTeardown(0, 2), [], ["teardown"], [], false, true),
         Node(1, Teardown, false, AwaitSubtests, [3, 4], [], [], true, false),
         Node(2, Subtest, true, Body, [], [], [], false, true),
         Node(2, Subtest, true, Body, [], [], [], false, true)]
  }

  lemma ToBothRun(s: State) returns (s': State)
    requires Reached(1, s) && TeardownWaits(s)
    ensures Reached(1, s') && BothRun(s')
  {
    s' := Starts(s, 3);
    s' := Starts(s', 4);
  }

  /** With one slot, two tests run their bodies at the same time. */
  lemma Oversubscribed() returns (actions: seq<Action>)
    ensures Runs(Init(1), actions)
    ensures var s := Exec(Init(1), actions);
      s.At(3, Body) && s.At(4, Body) && Holding(s.nodes[3]) && Holding(s.nodes[4])
  {
    var s := ToTestStarts();
    s := ToTestParks(s);
    s := ToMainEnds(s);
    s := ToMainWaits(s);
    s := ToTestRuns(s);
    s := ToTeardownRuns(s);
    s := ToTeardownForks(s);
    s := ToTeardownEnds(s);
    s := ToTeardownWaits(s);
    s := ToBothRun(s);
    actions :| Runs(Init(1), actions) && Exec(Init(1), actions) == s;
  }
}
