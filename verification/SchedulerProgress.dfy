/** No run gets stuck, and every run whose bodies only end comes to its end. */
module SchedulerProgress {
  import opened Scheduler
  import opened SchedulerInvariant
  import opened SchedulerSlots
  import opened SchedulerRuns

  /** A step of the scheduler, or a test body that ends. */
  predicate Progresses(a: Action) {
    !(a.Spawn? || a.AddTeardown? || a.AddCleanup? || a.CallParallel?)
  }

  predicate Possible(s: State, a: Action) {
    Progresses(a) && Enabled(s, a)
  }

  /** A node that waits for no other, or only for its parent's barrier, can go on. */
  lemma GoesOn(s: State, i: nat) returns (a: Action)
    requires Tree(s) && i < |s.nodes| && !s.nodes[i].Finished()
    requires var n := s.nodes[i];
      && !n.phase.AwaitSubtest? && !n.phase.AwaitTeardown? && n.phase != AwaitSubtests
      && !InQueue(n) && !Handing(n)
    requires s.nodes[i].phase == AwaitBarrier ==> s.Has(s.nodes[i].parent) && s.nodes[s.nodes[i].parent].barrierClosed
    ensures Possible(s, a)
  {
    var n := s.nodes[i];
    assert Holds(s, i);
    a := match n.phase
      case Body => EndBody(i)
      case Parking => Park(i)
      case AwaitBarrier => PassBarrier(i)
      case Entering => Enter(i)
      case Collecting => Collect(i)
      case Releasing(_) => ReleaseSlot(i)
      case OpeningBarrier => OpenBarrier(i)
      case Reentering => Reenter(i)
      case Teardowns(_) => NextTeardown(i)
      case Cleanups(_) => NextCleanup(i)
      case Finishing => Finish(i);
  }

  /** From a node that is not over, follows whom it waits for down to one that can go on. */
  lemma {:induction false} Descend(s: State, i: nat) returns (a: Action)
    requires Tree(s) && i < |s.nodes| && !s.nodes[i].Finished()
    requires forall k | 0 <= k < |s.nodes| :: !InQueue(s.nodes[k]) && !Handing(s.nodes[k])
    requires s.nodes[i].phase == AwaitBarrier ==> s.Has(s.nodes[i].parent) && s.nodes[s.nodes[i].parent].barrierClosed
    ensures Possible(s, a)
    decreases |s.nodes| - i
  {
    var n := s.nodes[i];
    assert Holds(s, i);
    if n.phase.AwaitSubtest? || n.phase.AwaitTeardown? {
      assert Holds(s, n.phase.child);
      a := Descend(s, n.phase.child);
    } else if n.phase == AwaitSubtests {
      if s.ParallelChildrenFinished(i) {
        a := SubtestsOver(i);
      } else {
        var c :| c in n.children && c < |s.nodes| && s.nodes[c].isParallel && !s.nodes[c].Finished();
        assert Holds(s, c);
        a := Descend(s, c);
      }
    } else {
      a := GoesOn(s, i);
    }
  }

  /** When all slots are taken and none is being handed over, a test on a slot can go on. */
  lemma HolderMoves(s: State) returns (a: Action)
    requires Tree(s) && !s.At(0, Phase.Finished)
    requires Count(Holding, s.nodes) > 0 && Count(Handing, s.nodes) == 0
    ensures Possible(s, a)
  {
    var h := CountSome(Holding, s.nodes);
    assert Holds(s, h);
    if Handing(s.nodes[h]) {
      CountEach(Handing, s.nodes, h);
      assert false;
    }
    a := GoesOn(s, h);
  }

  /** While tests wait for slots, a test on a slot, or one that hands its slot over, can go on. */
  lemma QueueMoves(s: State, q: nat) returns (a: Action)
    requires Good(s) && s.slots.maxParallel >= 1 && !s.At(0, Phase.Finished)
    requires q < |s.nodes| && (InQueue(s.nodes[q]) || Handing(s.nodes[q]))
    ensures Possible(s, a)
  {
    SumIsCounts(Credit, Holding, Owing, s.nodes);
    SumIsCounts(Queueing, InQueue, Handing, s.nodes);
    if Count(Handing, s.nodes) > 0 {
      var h := CountSome(Handing, s.nodes);
      var to := CountSome(InQueue, s.nodes);
      a := HandOff(h, to);
    } else {
      if Handing(s.nodes[q]) {
        CountEach(Handing, s.nodes, q);
      } else {
        CountEach(InQueue, s.nodes, q);
      }
      a := HolderMoves(s);
    }
  }

  /** Until the root is over some step of the scheduler is possible, once test bodies end. */
  lemma NeverStuck(s: State) returns (a: Action)
    requires Good(s) && s.slots.maxParallel >= 1 && !s.At(0, Phase.Finished)
    ensures Possible(s, a)
  {
    if q: nat :| q < |s.nodes| && (InQueue(s.nodes[q]) || Handing(s.nodes[q])) {
      a := QueueMoves(s, q);
    } else {
      assert Holds(s, 0);
      a := Descend(s, 0);
    }
  }

  /** A bound on the steps left in a node; a teardown yet to run counts for the node it will make. */
  function Rest(n: Node): (r: int)
    ensures r >= 0
  {
    var cleanups := 3 + |n.cleanups|;
    var all := cleanups + 13 * |n.teardowns|;
    match n.phase
    case Finished => 0
    case Finishing => 1
    case Cleanups(left) => 2 + left
    case Teardowns(left) => cleanups + 13 * left
    case AwaitTeardown(left, _) => cleanups + 13 * left + 1
    case Requeued => all + 1
    case Reentering => all + 2
    case AwaitSubtests => all + 3
    case OpeningBarrier => all + 4
    case HandingOff(_) => all + 5
    case Releasing(_) => all + 6
    case Collecting => all + 7
    case Body => all + 8
    case AwaitSubtest(_) => all + 9
    case Queued => all + 9
    case Entering => all + 10
    case AwaitBarrier => all + 11
    case Parking => all + 12
  }

  function StepsLeft(nodes: seq<Node>): int {
    Sum(Rest, nodes)
  }

  lemma {:induction false} StepsLeftNat(nodes: seq<Node>)
    ensures StepsLeft(nodes) >= 0
  {
    if nodes != [] {
      StepsLeftNat(nodes[..|nodes| - 1]);
    }
  }

  lemma PairStepsLeft(nodes: seq<Node>, i: nat, n: Node, j: nat, m: Node)
    requires i < |nodes| && j < |nodes| && i != j
    ensures StepsLeft(nodes[i := n][j := m]) == StepsLeft(nodes) - Rest(nodes[i]) + Rest(n) - Rest(nodes[j]) + Rest(m)
  {
    SumPut(Rest, nodes, i, n);
    SumPut(Rest, nodes[i := n], j, m);
  }

  lemma HandOffRests(s: State, a: Action)
    requires Tree(s) && Enabled(s, a) && a.HandOff?
    ensures StepsLeft(Step(s, a).nodes) < StepsLeft(s.nodes)
  {
    var s' := Step(s, a);
    PairStepsLeft(s.nodes, a.n, s'.nodes[a.n], a.to, s'.nodes[a.to]);
  }

  lemma ParkRests(s: State, a: Action)
    requires Tree(s) && Enabled(s, a) && a.Park?
    ensures StepsLeft(Step(s, a).nodes) < StepsLeft(s.nodes)
  {
    var s', p := Step(s, a), s.nodes[a.n].parent;
    assert Holds(s, a.n);
    PairStepsLeft(s.nodes, p, s'.nodes[p], a.n, s'.nodes[a.n]);
  }

  lemma StopRests(s: State, a: Action)
    requires Enabled(s, a) && a.Finish? && (s.nodes[a.n].kind == Root || s.nodes[a.n].isParallel)
    ensures StepsLeft(Step(s, a).nodes) < StepsLeft(s.nodes)
  {
    SumPut(Rest, s.nodes, a.n, Step(s, a).nodes[a.n]);
  }

  lemma ReturnRests(s: State, a: Action)
    requires Tree(s) && Enabled(s, a) && a.Finish? && s.nodes[a.n].kind != Root && !s.nodes[a.n].isParallel
    ensures StepsLeft(Step(s, a).nodes) < StepsLeft(s.nodes)
  {
    var s', p := Step(s, a), s.nodes[a.n].parent;
    assert Holds(s, a.n) && Awaits(s.nodes[p], a.n);
    PairStepsLeft(s.nodes, p, s'.nodes[p], a.n, s'.nodes[a.n]);
    assert s'.nodes == s.nodes[p := s'.nodes[p]][a.n := s'.nodes[a.n]];
  }

  lemma TeardownRests(s: State, a: Action)
    requires Tree(s) && Possible(s, a) && a.NextTeardown?
    ensures StepsLeft(Step(s, a).nodes) < StepsLeft(s.nodes)
  {
    var nodes, n := Step(s, a).nodes, s.nodes[a.n];
    SumPut(Rest, s.nodes, a.n, nodes[a.n]);
    if n.phase.left > 0 {
      var c := Child(a.n, Teardown, n.onSlot && !n.isParallel);
      assert nodes == s.nodes[a.n := nodes[a.n]] + [c];
      SumAppend(Rest, s.nodes[a.n := nodes[a.n]], c);
    }
  }

  predicate Alone(a: Action) {
    Progresses(a) && !(a.HandOff? || a.Park? || a.Finish? || a.NextTeardown?)
  }

  lemma AloneRest(s: State, a: Action)
    requires Enabled(s, a) && Alone(a)
    ensures Step(s, a).nodes == s.nodes[a.n := Step(s, a).nodes[a.n]]
    ensures Rest(Step(s, a).nodes[a.n]) < Rest(s.nodes[a.n])
  {
  }

  lemma AloneRests(s: State, a: Action)
    requires Enabled(s, a) && Alone(a)
    ensures StepsLeft(Step(s, a).nodes) < StepsLeft(s.nodes)
  {
    AloneRest(s, a);
    SumPut(Rest, s.nodes, a.n, Step(s, a).nodes[a.n]);
  }

  /** Every step of the scheduler leaves fewer steps to do. */
  lemma StepRests(s: State, a: Action)
    requires Tree(s) && Possible(s, a)
    ensures StepsLeft(Step(s, a).nodes) < StepsLeft(s.nodes)
  {
    if a.HandOff? {
      HandOffRests(s, a);
    } else if a.Park? {
      ParkRests(s, a);
    } else if a.Finish? {
      if s.nodes[a.n].kind == Root || s.nodes[a.n].isParallel {
        StopRests(s, a);
      } else {
        ReturnRests(s, a);
      }
    } else if a.NextTeardown? {
      TeardownRests(s, a);
    } else {
      AloneRests(s, a);
    }
  }

  /** However the scheduler chooses among its steps, a run whose test bodies only end is bounded. */
  lemma {:induction false} RunIsBounded(s: State, actions: seq<Action>)
    requires Good(s) && Runs(s, actions) && forall a <- actions :: Progresses(a)
    ensures |actions| <= StepsLeft(s.nodes)
    decreases |actions|
  {
    StepsLeftNat(s.nodes);
    if actions != [] {
      var a := actions[0];
      StepRests(s, a);
      RunGood(s, [a]);
      assert Exec(s, [a]) == Step(s, a);
      RunIsBounded(Step(s, a), actions[1..]);
    }
  }

  /** From every reachable state, a run whose test bodies only end reaches its end. */
  lemma {:induction false} RunEnds(s: State) returns (actions: seq<Action>)
    requires Good(s) && s.slots.maxParallel >= 1
    ensures Runs(s, actions) && (forall a <- actions :: Progresses(a))
    ensures Exec(s, actions).At(0, Phase.Finished)
    decreases StepsLeft(s.nodes)
  {
    StepsLeftNat(s.nodes);
    if s.At(0, Phase.Finished) {
      actions := [];
    } else {
      var a := NeverStuck(s);
      StepRests(s, a);
      RunGood(s, [a]);
      assert Exec(s, [a]) == Step(s, a);
      StepsLeftNat(Step(s, a).nodes);
      var rest := RunEnds(Step(s, a));
      actions := [a] + rest;
      assert actions[1..] == rest;
    }
  }
}
