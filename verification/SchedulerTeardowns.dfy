/** Tests that turn parallel below a teardown of a parallel test, and how their nodes look.

    A parallel test gives its slot up before its teardowns run, so that they run on none, and so do the
    sequential tests below them. */
module SchedulerTeardowns {
  import opened Scheduler
  import opened SchedulerInvariant
  import opened SchedulerRuns

  predicate TearsDownParallel(s: State, i: nat) {
    0 < i < |s.nodes| && s.nodes[i].kind == Teardown && s.nodes[i].parent < i && s.nodes[s.nodes[i].parent].isParallel
  }

  /** The test is a teardown of a parallel test, or has one above it. */
  predicate BelowTeardown(s: State, i: nat)
    decreases i
  {
    0 < i < |s.nodes| && s.nodes[i].parent < i && (TearsDownParallel(s, i) || BelowTeardown(s, s.nodes[i].parent))
  }

  /** No test has turned parallel below a teardown of a parallel test, at whatever depth. */
  predicate TeardownsSequential(s: State) {
    forall i | 0 <= i < |s.nodes| && s.nodes[i].isParallel :: !BelowTeardown(s, i)
  }

  /** A test that has turned parallel below one that runs without a slot. */
  predicate Intrudes(s: State, i: nat) {
    0 < i < |s.nodes| && s.nodes[i].isParallel
    && s.nodes[i].parent < |s.nodes| && !s.nodes[s.nodes[i].parent].onSlot
  }

  predicate NoneIntrudes(s: State) {
    forall i | 0 <= i < |s.nodes| :: !Intrudes(s, i)
  }

  /** A node gets a slot of its own when it parks, and sees another one when that parks or ends. */
  predicate Same(n: Node, m: Node) {
    m.onSlot == n.onSlot && m.children == n.children
  }

  lemma StepSame(s: State, a: Action, i: nat)
    requires Enabled(s, a) && i < |s.nodes| && !a.Park? && !a.Finish?
    ensures i < |Step(s, a).nodes| && Same(s.nodes[i], Step(s, a).nodes[i])
  {
    if a.HandOff? {
      HandOffSame(s, a, i);
    } else if a.n == i {
      OwnSame(s, a);
    }
  }

  lemma OwnSame(s: State, a: Action)
    requires Enabled(s, a) && !(a.HandOff? || a.Park? || a.Finish?)
    ensures a.n < |Step(s, a).nodes| && Same(s.nodes[a.n], Step(s, a).nodes[a.n])
  {
  }

  lemma HandOffSame(s: State, a: Action, i: nat)
    requires Enabled(s, a) && i < |s.nodes| && a.HandOff?
    ensures i < |Step(s, a).nodes| && Same(s.nodes[i], Step(s, a).nodes[i])
  {
  }

  lemma StepOnSlot(s: State, a: Action, i: nat)
    requires Enabled(s, a) && i < |s.nodes| && a != Park(i)
    ensures i < |Step(s, a).nodes| && Step(s, a).nodes[i].onSlot == s.nodes[i].onSlot
  {
    if !a.Park? && !a.Finish? {
      StepSame(s, a, i);
    }
  }

  /** Where tests run on a slot. */
  predicate SlottedAt(s: State, i: nat)
    requires i < |s.nodes|
  {
    && (!s.nodes[i].onSlot ==> BelowTeardown(s, i))
    && (TearsDownParallel(s, i) ==> !s.nodes[i].onSlot)
    && (0 < i && s.nodes[i].parent < i && !s.nodes[i].isParallel && !s.nodes[s.nodes[i].parent].isParallel ==>
          s.nodes[i].onSlot == s.nodes[s.nodes[i].parent].onSlot)
  }

  predicate Slotted(s: State) {
    forall i | 0 <= i < |s.nodes| :: SlottedAt(s, i)
  }

  lemma {:induction false} BelowStays(s: State, a: Action, i: nat)
    requires Enabled(s, a) && BelowTeardown(s, i)
    ensures BelowTeardown(Step(s, a), i)
    decreases i
  {
    var p := s.nodes[i].parent;
    StepKeeps(s, a, i);
    StepKeeps(s, a, p);
    if !TearsDownParallel(s, i) {
      BelowStays(s, a, p);
    }
  }

  /** No test turns parallel that has teardowns already. */
  lemma TearsDownStays(s: State, a: Action, i: nat)
    requires Tree(s) && Enabled(s, a) && i < |s.nodes|
    ensures TearsDownParallel(Step(s, a), i) ==> TearsDownParallel(s, i)
  {
    StepKeeps(s, a, i);
    if TearsDownParallel(Step(s, a), i) {
      var p := s.nodes[i].parent;
      assert Holds(s, i) && Holds(s, p);
      StepKeeps(s, a, p);
      ParallelStays(s, a, p);
    }
  }

  lemma ParallelStays(s: State, a: Action, i: nat)
    requires Enabled(s, a) && i < |s.nodes| && a != CallParallel(i)
    ensures i < |Step(s, a).nodes| && Step(s, a).nodes[i].isParallel == s.nodes[i].isParallel
  {
    if a.HandOff? || a.Park? || a.Finish? {
      PairParallelStays(s, a, i);
    }
  }

  lemma PairParallelStays(s: State, a: Action, i: nat)
    requires Enabled(s, a) && i < |s.nodes| && (a.HandOff? || a.Park? || a.Finish?)
    ensures i < |Step(s, a).nodes| && Step(s, a).nodes[i].isParallel == s.nodes[i].isParallel
  {
  }

  lemma StepSlottedAt(s: State, a: Action, i: nat)
    requires Tree(s) && Slotted(s) && Enabled(s, a) && i < |s.nodes|
    ensures i < |Step(s, a).nodes| && SlottedAt(Step(s, a), i)
  {
    var p := s.nodes[i].parent;
    assert Holds(s, i) && SlottedAt(s, i);
    StepKeeps(s, a, i);
    TearsDownStays(s, a, i);
    if !s.nodes[i].onSlot {
      BelowStays(s, a, i);
    }
    if a != Park(i) {
      StepOnSlot(s, a, i);
    }
    if 0 < i {
      assert Holds(s, p);
      StepKeeps(s, a, p);
      if a != Park(p) {
        StepOnSlot(s, a, p);
      }
    }
    var s' := Step(s, a);
    assert !s'.nodes[i].onSlot ==> BelowTeardown(s', i);
    assert TearsDownParallel(s', i) ==> !s'.nodes[i].onSlot;
  }

  lemma SpawnSlottedAt(s: State, a: Action)
    requires Tree(s) && Slotted(s) && Enabled(s, a) && a.Spawn?
    ensures SlottedAt(Step(s, a), |s.nodes|)
  {
    assert SlottedAt(s, a.n);
    if !s.nodes[a.n].onSlot {
      BelowStays(s, a, a.n);
    }
  }

  lemma TeardownSlottedAt(s: State, a: Action)
    requires Tree(s) && Slotted(s) && Enabled(s, a) && a.NextTeardown? && s.nodes[a.n].phase.left > 0
    ensures SlottedAt(Step(s, a), |s.nodes|)
  {
    assert SlottedAt(s, a.n);
    if !s.nodes[a.n].onSlot {
      BelowStays(s, a, a.n);
    }
  }

  lemma NewSlottedAt(s: State, a: Action, i: nat)
    requires Tree(s) && Slotted(s) && Enabled(s, a) && |s.nodes| <= i < |Step(s, a).nodes|
    ensures SlottedAt(Step(s, a), i)
  {
    if a.Spawn? {
      SpawnSlottedAt(s, a);
    } else {
      TeardownSlottedAt(s, a);
    }
  }

  lemma StepSlotted(s: State, a: Action)
    requires Tree(s) && Slotted(s) && Enabled(s, a)
    ensures Slotted(Step(s, a))
  {
    var s' := Step(s, a);
    forall i | 0 <= i < |s'.nodes| ensures SlottedAt(s', i) {
      if i < |s.nodes| {
        StepSlottedAt(s, a, i);
      } else {
        NewSlottedAt(s, a, i);
      }
    }
  }

  lemma {:induction false} RunSlotted(s: State, actions: seq<Action>)
    requires Good(s) && Slotted(s) && Runs(s, actions)
    ensures Slotted(Exec(s, actions))
    decreases |actions|
  {
    if actions != [] {
      RunGood(s, [actions[0]]);
      StepSlotted(s, actions[0]);
      RunSlotted(Step(s, actions[0]), actions[1..]);
    }
  }

  /** Going up from a test below a teardown of a parallel test, one that has a slot or has turned
      parallel, there is one that turned parallel where there is no slot. */
  lemma {:induction false} FindsIntruder(s: State, i: nat) returns (j: nat)
    requires Tree(s) && Slotted(s) && BelowTeardown(s, i) && (s.nodes[i].onSlot || s.nodes[i].isParallel)
    ensures Intrudes(s, j)
    decreases i
  {
    var p := s.nodes[i].parent;
    assert Holds(s, i) && Holds(s, p) && SlottedAt(s, i);
    if s.nodes[i].isParallel && !s.nodes[p].onSlot {
      j := i;
    } else {
      j := FindsIntruder(s, p);
    }
  }

  /** A test intrudes exactly where one has turned parallel below a teardown of a parallel test. */
  lemma IntrudersMean(s: State)
    requires Tree(s) && Slotted(s)
    ensures TeardownsSequential(s) <==> NoneIntrudes(s)
  {
    if i: nat :| i < |s.nodes| && Intrudes(s, i) {
      assert Holds(s, i) && SlottedAt(s, s.nodes[i].parent);
      assert BelowTeardown(s, i);
    }
    if i: nat :| i < |s.nodes| && s.nodes[i].isParallel && BelowTeardown(s, i) {
      var j := FindsIntruder(s, i);
    }
  }
}
