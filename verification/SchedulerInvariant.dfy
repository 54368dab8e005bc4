/** What every step of a run keeps: how a test and the tests it ran are tied together. */
module SchedulerInvariant {
  import opened Scheduler

  predicate PastBody(p: Phase) {
    !(p.Body? || p.AwaitSubtest? || p.Parking? || p.AwaitBarrier? || p.Entering? || p.Queued?)
  }

  predicate PastSubtests(p: Phase) {
    p.Reentering? || p.Requeued? || p.Teardowns? || p.AwaitTeardown? || p.Cleanups? || p.Finishing? || p.Finished?
  }

  /** Releases its slot for good: it has no parallel subtest. */
  predicate Leaving(p: Phase) {
    p == Releasing(false) || p == HandingOff(false)
  }

  predicate Awaits(p: Node, c: nat) {
    p.phase == AwaitSubtest(c) || (p.phase.AwaitTeardown? && p.phase.child == c)
  }

  /** What holds of a node by itself. */
  predicate Local(n: Node) {
    && (n.phase.Parking? || n.phase.AwaitBarrier? || n.phase.Entering? || n.phase.Queued? ==> n.isParallel)
    && (n.isParallel ==> n.kind == Subtest)
    && (n.isParallel && n.phase != Parking ==> n.onSlot)
    && (n.phase.Reentering? || n.phase.Requeued? ==> !n.isParallel)
    && (Leaving(n.phase) ==> n.isParallel)
    && (n.kind == Root ==> n.onSlot)
    && (n.barrierClosed ==> n.phase == AwaitSubtests || PastSubtests(n.phase))
    && (n.phase == AwaitSubtests ==> n.barrierClosed)
    && (n.phase.Teardowns? || n.phase.AwaitTeardown? ==> n.phase.left <= |n.teardowns|)
    && (n.phase.Cleanups? ==> n.phase.left <= |n.cleanups|)
  }

  /** What holds between a node and one it ran, `i` being the index of the latter. */
  predicate Link(p: Node, c: Node, i: nat) {
    && c.kind != Root
    && (Awaits(p, i) <==> !c.Detached() && !c.Finished())
    && (Awaits(p, i) ==> (p.phase.AwaitTeardown? <==> c.kind == Teardown))
    && (Awaits(p, i) ==> c.onSlot == (p.onSlot && !(p.phase.AwaitTeardown? && p.isParallel)))
    && (c.Detached() ==> i in p.children)
    && (c.Detached() && c.phase != AwaitBarrier ==> p.barrierClosed)
    && (c.Detached() && PastSubtests(p.phase) ==> c.Finished())
    && (c.Detached() ==> !Leaving(p.phase))
    && (c.kind == Teardown ==> PastSubtests(p.phase))
  }

  predicate IsChild(s: State, p: nat, c: nat) {
    0 < c < |s.nodes| && s.nodes[c].parent == p
  }

  /** Has found parallel subtests to wait for. */
  predicate Waits(p: Phase) {
    p == Releasing(true) || p == HandingOff(true)
    || p.OpeningBarrier? || p.AwaitSubtests? || p.Reentering? || p.Requeued?
  }

  /** Indexes kept in a node are those of tests it ran. */
  predicate Pointers(s: State, i: nat)
    requires i < |s.nodes|
  {
    var n := s.nodes[i];
    && (n.phase.AwaitSubtest? ==> IsChild(s, i, n.phase.child))
    && (n.phase.AwaitTeardown? ==> IsChild(s, i, n.phase.child))
    && (forall c <- n.children :: IsChild(s, i, c))
  }

  predicate Linked(s: State, i: nat)
    requires i < |s.nodes|
  {
    if i == 0 then s.nodes[0].kind == Root
    else s.nodes[i].parent < i && Link(s.nodes[s.nodes[i].parent], s.nodes[i], i)
  }

  predicate Holds(s: State, i: nat)
    requires i < |s.nodes|
  {
    Local(s.nodes[i]) && Pointers(s, i) && Linked(s, i)
  }

  predicate Tree(s: State) {
    0 < |s.nodes| && forall i | 0 <= i < |s.nodes| :: Holds(s, i)
  }

  lemma SameNodes(s: State, s': State)
    requires Tree(s) && s.nodes == s'.nodes
    ensures Tree(s')
  {
    forall k | 0 <= k < |s'.nodes| ensures Holds(s', k) {
      assert Holds(s, k);
    }
  }

  lemma InitTree(maxParallel: int)
    ensures Tree(Init(maxParallel))
  {
  }

  /** A test leaves the one that ran it, which goes on. */
  predicate Leaves(s: State, s': State, c: nat) {
    && 0 < c < |s.nodes| && s.nodes[c].parent < c
    && Holds(s, c) && Holds(s, s.nodes[c].parent)
    && s.nodes[c].phase == Parking && s.At(s.nodes[c].parent, AwaitSubtest(c))
    && var p := s.nodes[c].parent;
       s'.nodes == s.nodes[p := s.nodes[p].(phase := Body, children := s.nodes[p].children + [c])]
                          [c := s.nodes[c].(phase := AwaitBarrier, onSlot := true)]
  }

  lemma LeavePointers(s: State, s': State, c: nat, k: nat)
    requires k < |s.nodes| && Holds(s, k) && Leaves(s, s', c)
    ensures Local(s'.nodes[k]) && Pointers(s', k)
  {
  }

  lemma LeaveLinked(s: State, s': State, c: nat, k: nat)
    requires k < |s.nodes| && Holds(s, k) && Leaves(s, s', c)
    ensures Linked(s', k)
  {
  }

  /** A test nobody waits for ends. */
  lemma StopHolds(s: State, s': State, c: nat, k: nat)
    requires c < |s.nodes| && k < |s.nodes|
    requires Holds(s, c) && Holds(s, k)
    requires s.nodes[c].phase == Finishing && (c == 0 || s.nodes[c].isParallel)
    requires s'.nodes == s.nodes[c := s.nodes[c].(phase := Phase.Finished)]
    ensures Holds(s', k)
  {
  }

  /** A sequential test ends, and the one that ran it goes on. */
  predicate Returns(s: State, s': State, c: nat) {
    && 0 < c < |s.nodes| && s.nodes[c].parent < c
    && s.nodes[c].phase == Finishing && !s.nodes[c].isParallel
    && Holds(s, c) && Holds(s, s.nodes[c].parent)
    && var p := s.nodes[s.nodes[c].parent];
       var next := if p.phase.AwaitTeardown? then Teardowns(p.phase.left) else Body;
       s'.nodes == s.nodes[s.nodes[c].parent := p.(phase := next, children := p.children + [c])]
                          [c := s.nodes[c].(phase := Phase.Finished)]
  }

  lemma ReturnPointers(s: State, s': State, c: nat, k: nat)
    requires k < |s.nodes| && Holds(s, k) && Returns(s, s', c)
    ensures Local(s'.nodes[k]) && Pointers(s', k)
  {
  }

  lemma ReturnLinked(s: State, s': State, c: nat, k: nat)
    requires k < |s.nodes| && Holds(s, k) && Returns(s, s', c)
    ensures Linked(s', k)
  {
  }

  /** Neither parked, nor waiting for a test, nor over. */
  predicate Active(p: Phase) {
    !(p.Parking? || p.AwaitBarrier? || p.AwaitSubtest? || p.AwaitTeardown? || p.Finished?)
  }

  /** A step of one test that concerns no other. */
  lemma MoveTree(s: State, i: nat, phase: Phase)
    requires Tree(s) && i < |s.nodes|
    requires Local(s.nodes[i].(phase := phase))
    requires Active(s.nodes[i].phase) && Active(phase) && !Leaving(phase)
    requires PastSubtests(s.nodes[i].phase) ==> PastSubtests(phase)
    requires PastSubtests(phase) ==> PastSubtests(s.nodes[i].phase) || Leaving(s.nodes[i].phase)
    ensures Tree(s.Move(i, phase))
  {
    var s' := s.Move(i, phase);
    forall k | 0 <= k < |s'.nodes| ensures Holds(s', k) {
      assert Holds(s, k) && Holds(s, i);
    }
  }

  lemma SpawnTree(s: State, a: Action)
    requires Tree(s) && Enabled(s, a) && a.Spawn?
    ensures Tree(Step(s, a))
  {
    var s' := Step(s, a);
    forall k | 0 <= k < |s'.nodes| ensures Holds(s', k) {
      if k < |s.nodes| {
        assert Holds(s, k);
      }
    }
  }

  lemma RegisterTree(s: State, a: Action)
    requires Tree(s) && Enabled(s, a) && (a.AddTeardown? || a.AddCleanup?)
    ensures Tree(Step(s, a))
  {
    var s' := Step(s, a);
    forall k | 0 <= k < |s'.nodes| ensures Holds(s', k) {
      if k < |s.nodes| {
        assert Holds(s, k);
      }
    }
  }

  lemma CallParallelTree(s: State, a: Action)
    requires Tree(s) && Enabled(s, a) && a.CallParallel?
    ensures Tree(Step(s, a))
  {
    var s' := Step(s, a);
    forall k | 0 <= k < |s'.nodes| ensures Holds(s', k) {
      if k < |s.nodes| {
        assert Holds(s, k);
      }
    }
  }

  lemma ParkTree(s: State, a: Action)
    requires Tree(s) && Enabled(s, a) && a.Park?
    ensures Tree(Step(s, a))
  {
    var s', c := Step(s, a), a.n;
    assert Holds(s, c);
    forall k | 0 <= k < |s'.nodes| ensures Holds(s', k) {
      assert Holds(s, k) && Holds(s, s.nodes[c].parent);
      LeavePointers(s, s', c, k);
      LeaveLinked(s, s', c, k);
    }
  }

  lemma PassBarrierTree(s: State, a: Action)
    requires Tree(s) && Enabled(s, a) && a.PassBarrier?
    ensures Tree(Step(s, a))
  {
    var s' := Step(s, a);
    forall k | 0 <= k < |s'.nodes| ensures Holds(s', k) {
      if k < |s.nodes| {
        assert Holds(s, k);
      }
    }
  }

  lemma EnterTree(s: State, a: Action)
    requires Tree(s) && Enabled(s, a) && a.Enter?
    ensures Tree(Step(s, a))
  {
    assert Holds(s, a.n);
    var next := if s.slots.running < s.slots.maxParallel then Body else Queued;
    MoveTree(s, a.n, next);
    SameNodes(s.Move(a.n, next), Step(s, a));
  }

  lemma EndBodyTree(s: State, a: Action)
    requires Tree(s) && Enabled(s, a) && a.EndBody?
    ensures Tree(Step(s, a))
  {
    var s' := Step(s, a);
    forall k | 0 <= k < |s'.nodes| ensures Holds(s', k) {
      if k < |s.nodes| {
        assert Holds(s, k);
      }
    }
  }

  lemma CollectTree(s: State, a: Action)
    requires Tree(s) && Enabled(s, a) && a.Collect?
    ensures Tree(Step(s, a))
  {
    var s' := Step(s, a);
    forall k | 0 <= k < |s'.nodes| ensures Holds(s', k) {
      if k < |s.nodes| {
        assert Holds(s, k);
      }
    }
  }

  lemma ReleaseSlotTree(s: State, a: Action)
    requires Tree(s) && Enabled(s, a) && a.ReleaseSlot?
    ensures Tree(Step(s, a))
  {
    var s' := Step(s, a);
    forall k | 0 <= k < |s'.nodes| ensures Holds(s', k) {
      if k < |s.nodes| {
        assert Holds(s, k);
      }
    }
  }

  lemma HandOffTree(s: State, a: Action)
    requires Tree(s) && Enabled(s, a) && a.HandOff?
    ensures Tree(Step(s, a))
  {
    assert Holds(s, a.n) && Holds(s, a.to);
    var s' := s.Move(a.n, AfterRelease(s.nodes[a.n], s.nodes[a.n].phase.waits));
    MoveTree(s, a.n, s'.nodes[a.n].phase);
    var m := s'.nodes[a.to];
    var next := if m.phase == Queued then Body else Teardowns(|m.teardowns|);
    MoveTree(s', a.to, next);
    SameNodes(s'.Move(a.to, next), Step(s, a));
  }

  lemma OpenBarrierTree(s: State, a: Action)
    requires Tree(s) && Enabled(s, a) && a.OpenBarrier?
    ensures Tree(Step(s, a))
  {
    var s' := Step(s, a);
    forall k | 0 <= k < |s'.nodes| ensures Holds(s', k) {
      if k < |s.nodes| {
        assert Holds(s, k);
      }
    }
  }

  lemma SubtestsOverTree(s: State, a: Action)
    requires Tree(s) && Enabled(s, a) && a.SubtestsOver?
    ensures Tree(Step(s, a))
  {
    var s' := Step(s, a);
    forall k | 0 <= k < |s'.nodes| ensures Holds(s', k) {
      if k < |s.nodes| {
        assert Holds(s, k);
      }
    }
  }

  lemma ReenterTree(s: State, a: Action)
    requires Tree(s) && Enabled(s, a) && a.Reenter?
    ensures Tree(Step(s, a))
  {
    var s' := Step(s, a);
    forall k | 0 <= k < |s'.nodes| ensures Holds(s', k) {
      if k < |s.nodes| {
        assert Holds(s, k);
      }
    }
  }

  lemma NextTeardownTree(s: State, a: Action)
    requires Tree(s) && Enabled(s, a) && a.NextTeardown?
    ensures Tree(Step(s, a))
  {
    var s', n := Step(s, a), s.nodes[a.n];
    if n.phase.left == 0 {
      assert Holds(s, a.n);
      MoveTree(s, a.n, Cleanups(|n.cleanups|));
      SameNodes(s.Move(a.n, Cleanups(|n.cleanups|)), s');
    } else {
      forall k | 0 <= k < |s'.nodes| ensures Holds(s', k) {
        assert Holds(s, a.n);
        if k < |s.nodes| {
          assert Holds(s, k);
          TeardownStarts(s, a, k);
        }
      }
    }
  }

  lemma TeardownStarts(s: State, a: Action, k: nat)
    requires Enabled(s, a) && a.NextTeardown? && s.nodes[a.n].phase.left > 0 && k < |s.nodes|
    requires Holds(s, k) && Holds(s, a.n)
    ensures Holds(Step(s, a), k)
  {
  }

  lemma NextCleanupTree(s: State, a: Action)
    requires Tree(s) && Enabled(s, a) && a.NextCleanup?
    ensures Tree(Step(s, a))
  {
    assert Holds(s, a.n);
    var left := s.nodes[a.n].phase.left;
    var next := if left == 0 then Finishing else Cleanups(left - 1);
    MoveTree(s, a.n, next);
    SameNodes(s.Move(a.n, next), Step(s, a));
  }

  lemma FinishTree(s: State, a: Action)
    requires Tree(s) && Enabled(s, a) && a.Finish?
    ensures Tree(Step(s, a))
  {
    var s', c := Step(s, a), a.n;
    var n := s.nodes[c];
    assert Holds(s, c);
    forall k | 0 <= k < |s'.nodes| ensures Holds(s', k) {
      assert Holds(s, k);
      if n.kind == Root || n.isParallel {
        StopHolds(s, s', c, k);
      } else {
        assert Holds(s, n.parent);
        ReturnPointers(s, s', c, k);
        ReturnLinked(s, s', c, k);
      }
    }
  }

  /** What a node never changes, and what only grows. */
  predicate Keeps(n: Node, m: Node) {
    m.parent == n.parent && m.kind == n.kind && (n.isParallel ==> m.isParallel) && n.children <= m.children
  }

  /** Phases that are not left, or not entered from elsewhere. */
  predicate Advances(n: Phase, m: Phase) {
    && (n.Finished? ==> m.Finished?)
    && (PastBody(n) ==> PastBody(m))
    && (Waits(m) ==> Waits(n) || n == Collecting)
  }

  lemma StepKeeps(s: State, a: Action, i: nat)
    requires Enabled(s, a) && i < |s.nodes|
    ensures i < |Step(s, a).nodes| && Keeps(s.nodes[i], Step(s, a).nodes[i])
  {
    if a.HandOff? || a.Park? || a.Finish? {
      PairKeeps(s, a, i);
    } else if a.n == i {
      OwnKeeps(s, a);
    }
  }

  lemma PairKeeps(s: State, a: Action, i: nat)
    requires Enabled(s, a) && i < |s.nodes| && (a.HandOff? || a.Park? || a.Finish?)
    ensures i < |Step(s, a).nodes| && Keeps(s.nodes[i], Step(s, a).nodes[i])
  {
  }

  lemma OwnKeeps(s: State, a: Action)
    requires Enabled(s, a) && !(a.HandOff? || a.Park? || a.Finish?)
    ensures a.n < |Step(s, a).nodes| && Keeps(s.nodes[a.n], Step(s, a).nodes[a.n])
  {
  }

  lemma StepAdvances(s: State, a: Action, i: nat)
    requires Tree(s) && Enabled(s, a) && i < |s.nodes|
    ensures i < |Step(s, a).nodes| && Advances(s.nodes[i].phase, Step(s, a).nodes[i].phase)
  {
    if a.HandOff? || a.Park? {
      PairAdvances(s, a, i);
    } else if a.Finish? {
      FinishAdvances(s, a, i);
    } else if a.n == i {
      OwnAdvances(s, a);
    }
  }

  lemma PairAdvances(s: State, a: Action, i: nat)
    requires Tree(s) && Enabled(s, a) && i < |s.nodes| && (a.HandOff? || a.Park?)
    ensures i < |Step(s, a).nodes| && Advances(s.nodes[i].phase, Step(s, a).nodes[i].phase)
  {
    assert Holds(s, a.n);
  }

  lemma FinishAdvances(s: State, a: Action, i: nat)
    requires Tree(s) && Enabled(s, a) && i < |s.nodes| && a.Finish?
    ensures i < |Step(s, a).nodes| && Advances(s.nodes[i].phase, Step(s, a).nodes[i].phase)
  {
    assert Holds(s, a.n);
  }

  lemma OwnAdvances(s: State, a: Action)
    requires Enabled(s, a) && !(a.HandOff? || a.Park? || a.Finish?)
    ensures a.n < |Step(s, a).nodes| && Advances(s.nodes[a.n].phase, Step(s, a).nodes[a.n].phase)
  {
  }

  /** Whoever waits for parallel subtests has some. */
  predicate Purposeful(s: State) {
    forall i | 0 <= i < |s.nodes| :: Waits(s.nodes[i].phase) ==> s.HasParallelChild(i)
  }

  lemma StepPurposeful(s: State, a: Action)
    requires Tree(s) && Purposeful(s) && Enabled(s, a)
    ensures Purposeful(Step(s, a))
  {
    var s' := Step(s, a);
    forall i | 0 <= i < |s'.nodes| && Waits(s'.nodes[i].phase) ensures s'.HasParallelChild(i) {
      if i < |s.nodes| {
        StepKeeps(s, a, i);
        StepAdvances(s, a, i);
        assert s.HasParallelChild(i);
        var c :| c in s.nodes[i].children && c < |s.nodes| && s.nodes[c].isParallel;
        StepKeeps(s, a, c);
        assert c in s'.nodes[i].children;
      }
    }
  }

  /** Every step keeps the tree. */
  lemma StepTree(s: State, a: Action)
    requires Tree(s) && Enabled(s, a)
    ensures Tree(Step(s, a))
  {
    match a
    case Spawn(_) => SpawnTree(s, a);
    case AddTeardown(_, _) => RegisterTree(s, a);
    case AddCleanup(_, _) => RegisterTree(s, a);
    case CallParallel(_) => CallParallelTree(s, a);
    case Park(_) => ParkTree(s, a);
    case PassBarrier(_) => PassBarrierTree(s, a);
    case Enter(_) => EnterTree(s, a);
    case EndBody(_) => EndBodyTree(s, a);
    case Collect(_) => CollectTree(s, a);
    case ReleaseSlot(_) => ReleaseSlotTree(s, a);
    case HandOff(_, _) => HandOffTree(s, a);
    case OpenBarrier(_) => OpenBarrierTree(s, a);
    case SubtestsOver(_) => SubtestsOverTree(s, a);
    case Reenter(_) => ReenterTree(s, a);
    case NextTeardown(_) => NextTeardownTree(s, a);
    case NextCleanup(_) => NextCleanupTree(s, a);
    case Finish(_) => FinishTree(s, a);
  }
}
