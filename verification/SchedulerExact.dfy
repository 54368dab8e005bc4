/** When the counter of running tests is exact: unless tests turn parallel below teardowns of parallel
    tests, which run without a slot. */
module SchedulerExact {
  import opened Scheduler
  import opened SchedulerInvariant
  import opened SchedulerRuns
  import opened SchedulerSlots
  import opened SchedulerTeardowns

  /** The counter is the number of tests on a slot. */
  predicate Exact(s: State) {
    s.slots.running == Count(Holding, s.nodes)
  }

  /** It is unless a test without a slot has given one up. */
  lemma ExactMeans(s: State)
    requires Good(s)
    ensures Exact(s) <==> forall i | 0 <= i < |s.nodes| :: !Owing(s.nodes[i])
  {
    SumIsCounts(Credit, Holding, Owing, s.nodes);
    if i: nat :| i < |s.nodes| && Owing(s.nodes[i]) {
      CountEach(Owing, s.nodes, i);
    } else {
      CountNone(Owing, s.nodes);
    }
  }

  predicate ExactThroughout(s: State, actions: seq<Action>)
    requires Runs(s, actions)
    decreases |actions|
  {
    Exact(s) && (actions == [] || ExactThroughout(Step(s, actions[0]), actions[1..]))
  }

  /** A test that parks below one without a slot has turned parallel there. */
  lemma ParkIntrudes(s: State, p: nat)
    requires Tree(s) && Enabled(s, Park(p)) && !s.nodes[p].onSlot
    ensures Intrudes(Step(s, Park(p)), p)
  {
    assert Holds(s, p) && Holds(s, s.nodes[p].parent);
  }

  /** What has turned parallel there stays: when the test above it gets a slot, by turning parallel
      itself, that test is below one without a slot. */
  lemma IntrusionStays(s: State, a: Action, i: nat)
    requires Tree(s) && Enabled(s, a) && Intrudes(s, i)
    ensures !NoneIntrudes(Step(s, a))
  {
    var p := s.nodes[i].parent;
    StepKeeps(s, a, i);
    StepKeeps(s, a, p);
    if a == Park(p) {
      ParkIntrudes(s, p);
    } else {
      StepOnSlot(s, a, p);
      assert Intrudes(Step(s, a), i);
    }
  }

  lemma SequentialIsExact(s: State)
    requires Good(s) && NoneIntrudes(s)
    ensures Exact(s)
  {
    ExactMeans(s);
    forall i | 0 <= i < |s.nodes| ensures !Owing(s.nodes[i]) {
      if Waits(s.nodes[i].phase) {
        assert Holds(s, i);
        assert s.HasParallelChild(i);
        var c :| c in s.nodes[i].children && c < |s.nodes| && s.nodes[c].isParallel;
        assert !Intrudes(s, c);
      }
    }
  }

  lemma {:induction false} SequentialIsExactThroughout(s: State, actions: seq<Action>)
    requires Good(s) && Runs(s, actions) && NoneIntrudes(Exec(s, actions))
    ensures NoneIntrudes(s) && ExactThroughout(s, actions)
    decreases |actions|
  {
    if actions != [] {
      RunGood(s, [actions[0]]);
      SequentialIsExactThroughout(Step(s, actions[0]), actions[1..]);
      if i: nat :| Intrudes(s, i) {
        IntrusionStays(s, actions[0], i);
      }
    }
    SequentialIsExact(s);
  }

  /** No test without a slot has been through waiting for parallel subtests. */
  predicate NoneOwed(s: State) {
    forall i | 0 <= i < |s.nodes| && !s.nodes[i].onSlot && PastSubtests(s.nodes[i].phase) :: !s.HasParallelChild(i)
  }

  /** What a test has seen, and is past waiting for, turns parallel no more. */
  lemma SeenTurnsNoMore(s: State, a: Action, i: nat, c: nat)
    requires Tree(s) && Enabled(s, a) && i < |s.nodes| && c in s.nodes[i].children
    requires PastSubtests(Step(s, a).nodes[i].phase)
    ensures c < |s.nodes| && Step(s, a).nodes[c].isParallel == s.nodes[c].isParallel
  {
    assert Holds(s, i);
    assert IsChild(s, i, c);
    assert Holds(s, c);
    StepKeeps(s, a, c);
    if a.Park? || a.Finish? || a.HandOff? {
      PairTurns(s, a, c);
    }
  }

  lemma PairTurns(s: State, a: Action, c: nat)
    requires Enabled(s, a) && c < |s.nodes| && (a.Park? || a.Finish? || a.HandOff?)
    ensures c < |Step(s, a).nodes| && Step(s, a).nodes[c].isParallel == s.nodes[c].isParallel
  {
  }

  /** What is seen past waiting for subtests is not parallel. */
  lemma SeesNoMore(s: State, a: Action, i: nat)
    requires Tree(s) && Enabled(s, a) && i < |s.nodes| && PastSubtests(Step(s, a).nodes[i].phase)
    requires a.Park? || a.Finish?
    ensures forall c <- Step(s, a).nodes[i].children :: c in s.nodes[i].children || !s.nodes[c].isParallel
  {
    assert Holds(s, a.n) && Holds(s, i);
  }

  lemma ParallelSeenBefore(s: State, a: Action, i: nat)
    requires Tree(s) && Enabled(s, a) && i < |s.nodes| && PastSubtests(Step(s, a).nodes[i].phase)
    requires Step(s, a).HasParallelChild(i)
    ensures s.HasParallelChild(i)
  {
    var s' := Step(s, a);
    var c :| c in s'.nodes[i].children && c < |s'.nodes| && s'.nodes[c].isParallel;
    if a.Park? || a.Finish? {
      SeesNoMore(s, a, i);
      PairTurns(s, a, c);
    } else {
      StepSame(s, a, i);
      SeenTurnsNoMore(s, a, i, c);
    }
  }

  lemma StepNoneOwed(s: State, a: Action)
    requires Good(s) && Enabled(s, a) && Exact(s) && NoneOwed(s)
    ensures NoneOwed(Step(s, a))
  {
    var s' := Step(s, a);
    ExactMeans(s);
    forall i | 0 <= i < |s'.nodes| && !s'.nodes[i].onSlot && PastSubtests(s'.nodes[i].phase)
      ensures !s'.HasParallelChild(i)
    {
      if i < |s.nodes| {
        if s'.HasParallelChild(i) {
          ParallelSeenBefore(s, a, i);
          GetsPast(s, a, i);
        }
      }
    }
  }

  /** A test without a slot gets past its parallel subtests from where it owes one. */
  lemma GetsPast(s: State, a: Action, i: nat)
    requires Tree(s) && Enabled(s, a) && i < |s.nodes| && s.HasParallelChild(i)
    requires PastSubtests(Step(s, a).nodes[i].phase) && !Step(s, a).nodes[i].onSlot
    ensures !s.nodes[i].onSlot && (PastSubtests(s.nodes[i].phase) || Owing(s.nodes[i]))
  {
    if a.HandOff? || a.Park? || a.Finish? {
      PairGetsPast(s, a, i);
    } else if a.n == i {
      OwnGetsPast(s, a);
    }
  }

  lemma PairGetsPast(s: State, a: Action, i: nat)
    requires Tree(s) && Enabled(s, a) && i < |s.nodes| && (a.HandOff? || a.Park? || a.Finish?)
    requires PastSubtests(Step(s, a).nodes[i].phase) && !Step(s, a).nodes[i].onSlot
    ensures !s.nodes[i].onSlot && (PastSubtests(s.nodes[i].phase) || Owing(s.nodes[i]))
  {
    assert Holds(s, i);
  }

  lemma OwnGetsPast(s: State, a: Action)
    requires Tree(s) && Enabled(s, a) && s.HasParallelChild(a.n) && !(a.HandOff? || a.Park? || a.Finish?)
    requires PastSubtests(Step(s, a).nodes[a.n].phase) && !Step(s, a).nodes[a.n].onSlot
    ensures !s.nodes[a.n].onSlot && (PastSubtests(s.nodes[a.n].phase) || Owing(s.nodes[a.n]))
  {
    assert Holds(s, a.n);
  }

  lemma {:induction false} ExactLeavesNoneOwed(s: State, actions: seq<Action>)
    requires Good(s) && Runs(s, actions) && ExactThroughout(s, actions) && NoneOwed(s)
    ensures NoneOwed(Exec(s, actions))
    decreases |actions|
  {
    if actions != [] {
      RunGood(s, [actions[0]]);
      StepNoneOwed(s, actions[0]);
      ExactLeavesNoneOwed(Step(s, actions[0]), actions[1..]);
    }
  }

  /** Where all is over, the test above one that turned parallel without a slot has waited for it. */
  lemma IntrusionWasOwed(s: State, i: nat)
    requires Tree(s) && s.nodes[0].Finished() && Intrudes(s, i)
    ensures !NoneOwed(s)
  {
    var p := s.nodes[i].parent;
    AllFinished(s, i);
    AllFinished(s, p);
    assert Holds(s, i);
    assert i in s.nodes[p].children;
    assert s.HasParallelChild(p);
  }

  /** In a run that has ended the counter was the number of tests on a slot all the time if and only
      if no test turned parallel below a teardown of a parallel test. */
  lemma CounterExact(maxParallel: int, actions: seq<Action>)
    requires maxParallel >= 1 && Runs(Init(maxParallel), actions)
    requires Exec(Init(maxParallel), actions).At(0, Phase.Finished)
    ensures ExactThroughout(Init(maxParallel), actions) <==> TeardownsSequential(Exec(Init(maxParallel), actions))
  {
    InitTree(maxParallel);
    var s := Exec(Init(maxParallel), actions);
    ReachesGood(maxParallel, actions);
    RunSlotted(Init(maxParallel), actions);
    IntrudersMean(s);
    if TeardownsSequential(s) {
      SequentialIsExactThroughout(Init(maxParallel), actions);
    } else if ExactThroughout(Init(maxParallel), actions) {
      ExactLeavesNoneOwed(Init(maxParallel), actions);
      var i: nat :| i < |s.nodes| && Intrudes(s, i);
      IntrusionWasOwed(s, i);
    }
  }

  /** With sequential teardowns, at most `maxParallel` tests are on a slot at any time. */
  lemma SlotsBoundTests(maxParallel: int, actions: seq<Action>)
    requires maxParallel >= 1 && Runs(Init(maxParallel), actions)
    requires TeardownsSequential(Exec(Init(maxParallel), actions))
    ensures var s := Exec(Init(maxParallel), actions);
      0 <= s.slots.running == Count(Holding, s.nodes) <= maxParallel
  {
    InitTree(maxParallel);
    ReachesGood(maxParallel, actions);
    RunSlotted(Init(maxParallel), actions);
    IntrudersMean(Exec(Init(maxParallel), actions));
    SequentialIsExact(Exec(Init(maxParallel), actions));
  }
}
