/** What holds in every state a run can reach, and where a run ends. */
module SchedulerRuns {
  import opened Context
  import opened Scheduler
  import opened SchedulerInvariant
  import opened SchedulerSlots

  predicate Good(s: State) {
    Tree(s) && Balanced(s) && Purposeful(s)
  }

  lemma {:induction false} RunGood(s: State, actions: seq<Action>)
    requires Good(s) && Runs(s, actions)
    ensures Good(Exec(s, actions)) && Exec(s, actions).slots.maxParallel == s.slots.maxParallel
    decreases |actions|
  {
    if actions != [] {
      StepTree(s, actions[0]);
      StepBalance(s, actions[0]);
      StepPurposeful(s, actions[0]);
      RunGood(Step(s, actions[0]), actions[1..]);
    }
  }

  lemma ReachesGood(maxParallel: int, actions: seq<Action>)
    requires maxParallel >= 1 && Runs(Init(maxParallel), actions)
    ensures Good(Exec(Init(maxParallel), actions))
    ensures Exec(Init(maxParallel), actions).slots.maxParallel == maxParallel
  {
    InitTree(maxParallel);
    RunGood(Init(maxParallel), actions);
  }

  function Count(p: Node -> bool, nodes: seq<Node>): nat {
    if nodes == [] then 0
    else Count(p, nodes[..|nodes| - 1]) + if p(nodes[|nodes| - 1]) then 1 else 0
  }

  lemma {:induction false} SumIsCounts(f: Node -> int, plus: Node -> bool, minus: Node -> bool, nodes: seq<Node>)
    requires forall n :: f(n) == (if plus(n) then 1 else if minus(n) then -1 else 0)
    requires forall n :: !(plus(n) && minus(n))
    ensures Sum(f, nodes) == Count(plus, nodes) - Count(minus, nodes)
  {
    if nodes != [] {
      SumIsCounts(f, plus, minus, nodes[..|nodes| - 1]);
    }
  }

  lemma {:induction false} CountNone(p: Node -> bool, nodes: seq<Node>)
    requires forall i | 0 <= i < |nodes| :: !p(nodes[i])
    ensures Count(p, nodes) == 0
  {
    if nodes != [] {
      CountNone(p, nodes[..|nodes| - 1]);
    }
  }

  lemma {:induction false} CountSome(p: Node -> bool, nodes: seq<Node>) returns (i: nat)
    requires Count(p, nodes) > 0
    ensures i < |nodes| && p(nodes[i])
  {
    var k := |nodes| - 1;
    if p(nodes[k]) {
      i := k;
    } else {
      i := CountSome(p, nodes[..k]);
    }
  }

  predicate InQueue(n: Node) {
    n.phase.Queued? || n.phase.Requeued?
  }

  predicate Handing(n: Node) {
    n.phase.HandingOff?
  }

  /** Slot accounting in every reachable state: the counter is the number of tests on a slot, less
      the tests without a slot that have given one up; a test waits only while no slot is free. */
  lemma SlotsAddUp(maxParallel: int, actions: seq<Action>)
    requires maxParallel >= 1 && Runs(Init(maxParallel), actions)
    ensures var s := Exec(Init(maxParallel), actions);
      && s.slots.running == Count(Holding, s.nodes) - Count(Owing, s.nodes) <= maxParallel
      && s.slots.numWaiting == Count(InQueue, s.nodes) - Count(Handing, s.nodes)
      && (s.slots.numWaiting > 0 ==> s.slots.running == maxParallel)
  {
    ReachesGood(maxParallel, actions);
    var s := Exec(Init(maxParallel), actions);
    SumIsCounts(Credit, Holding, Owing, s.nodes);
    SumIsCounts(Queueing, InQueue, Handing, s.nodes);
  }

  lemma {:induction false} CountEach(p: Node -> bool, nodes: seq<Node>, i: nat)
    requires i < |nodes| && p(nodes[i])
    ensures Count(p, nodes) > 0
  {
    var k := |nodes| - 1;
    if i < k {
      CountEach(p, nodes[..k], i);
    }
  }

  lemma {:induction false} AllFinished(s: State, i: nat)
    requires Tree(s) && s.nodes[0].Finished() && i < |s.nodes|
    ensures s.nodes[i].Finished()
  {
    assert Holds(s, i);
    if i > 0 {
      AllFinished(s, s.nodes[i].parent);
    }
  }

  lemma {:induction false} FinishedSums(s: State, nodes: seq<Node>)
    requires |nodes| > 0 && nodes[0].kind == Root && nodes[0].onSlot
    requires forall i | 0 <= i < |nodes| :: nodes[i].Finished() && (i > 0 ==> nodes[i].kind != Root)
    ensures Sum(Credit, nodes) == 1 && Sum(Queueing, nodes) == 0
  {
    if |nodes| > 1 {
      FinishedSums(s, nodes[..|nodes| - 1]);
    } else {
      assert nodes[..0] == [];
    }
  }

  /** When the root is over, so is every test, and only the slot of the main test is taken. */
  lemma RunEndsBalanced(maxParallel: int, actions: seq<Action>)
    requires maxParallel >= 1 && Runs(Init(maxParallel), actions)
    requires Exec(Init(maxParallel), actions).At(0, Phase.Finished)
    ensures var s := Exec(Init(maxParallel), actions);
      && (forall i | 0 <= i < |s.nodes| :: s.nodes[i].Finished())
      && s.slots == Slots(maxParallel, 1, 0)
  {
    ReachesGood(maxParallel, actions);
    var s := Exec(Init(maxParallel), actions);
    forall i | 0 <= i < |s.nodes| ensures s.nodes[i].Finished() && (i > 0 ==> s.nodes[i].kind != Root) {
      assert Holds(s, i);
      AllFinished(s, i);
    }
    assert Holds(s, 0);
    FinishedSums(s, s.nodes);
  }
}
