/** Slot accounting over whole runs. */
module SchedulerSlots {
  import opened Context
  import opened Scheduler
  import opened SchedulerInvariant

  /** A node that takes up the slot it runs on: it runs its body, is about to give the slot up or
      runs its teardowns and cleanups. A parallel test has given its slot up by then. */
  predicate Holding(n: Node) {
    n.onSlot &&
    (n.phase.Body? || n.phase.Parking? || n.phase.Collecting? || n.phase.Releasing? || n.phase.HandingOff?
     || (!n.isParallel && (n.phase.Teardowns? || n.phase.Cleanups? || n.phase.Finishing?))
     || (n.kind == Root && n.phase.Finished?))
  }

  /** A node without a slot that has released one and not taken it again. */
  predicate Owing(n: Node) {
    !n.onSlot && (n.phase.OpeningBarrier? || n.phase.AwaitSubtests? || n.phase.Reentering? || n.phase.Requeued?)
  }

  function Credit(n: Node): int {
    if Holding(n) then 1 else if Owing(n) then -1 else 0
  }

  /** Tests in the queue, less those already taken off it by a test that is yet to hand its slot over. */
  function Queueing(n: Node): int {
    if n.phase.Queued? || n.phase.Requeued? then 1 else if n.phase.HandingOff? then -1 else 0
  }

  function Sum(f: Node -> int, nodes: seq<Node>): int {
    if nodes == [] then 0 else Sum(f, nodes[..|nodes| - 1]) + f(nodes[|nodes| - 1])
  }

  predicate Balanced(s: State) {
    && s.slots.running == Sum(Credit, s.nodes)
    && s.slots.numWaiting == Sum(Queueing, s.nodes)
    && s.slots.Bounded()
  }

  lemma {:induction false} SumPut(f: Node -> int, nodes: seq<Node>, i: nat, n: Node)
    requires i < |nodes|
    ensures Sum(f, nodes[i := n]) == Sum(f, nodes) - f(nodes[i]) + f(n)
  {
    var k := |nodes| - 1;
    if i == k {
      assert nodes[i := n][..k] == nodes[..k];
    } else {
      assert nodes[i := n][..k] == nodes[..k][i := n];
      SumPut(f, nodes[..k], i, n);
    }
  }

  lemma SumAppend(f: Node -> int, nodes: seq<Node>, n: Node)
    ensures Sum(f, nodes + [n]) == Sum(f, nodes) + f(n)
  {
    assert (nodes + [n])[..|nodes|] == nodes;
  }

  /** A step that changes one node balances when the counters change as that node does. */
  lemma PutBalance(s: State, i: nat, n: Node, s': State)
    requires Balanced(s) && i < |s.nodes| && s'.nodes == s.nodes[i := n]
    requires s'.slots.running - s.slots.running == Credit(n) - Credit(s.nodes[i])
    requires s'.slots.numWaiting - s.slots.numWaiting == Queueing(n) - Queueing(s.nodes[i])
    requires s'.slots.Bounded()
    ensures Balanced(s')
  {
    SumPut(Credit, s.nodes, i, n);
    SumPut(Queueing, s.nodes, i, n);
  }

  /** A step that moves a slot, or nothing, between two nodes. */
  lemma PairBalance(s: State, i: nat, n: Node, j: nat, m: Node, s': State)
    requires Balanced(s) && i < |s.nodes| && j < |s.nodes| && i != j
    requires s'.nodes == s.nodes[i := n][j := m] && s'.slots == s.slots
    requires Credit(n) + Credit(m) == Credit(s.nodes[i]) + Credit(s.nodes[j])
    requires Queueing(n) + Queueing(m) == Queueing(s.nodes[i]) + Queueing(s.nodes[j])
    ensures Balanced(s')
  {
    SumPut(Credit, s.nodes, i, n);
    SumPut(Queueing, s.nodes, i, n);
    SumPut(Credit, s.nodes[i := n], j, m);
    SumPut(Queueing, s.nodes[i := n], j, m);
  }

  /** A step that starts a test on the slot of the one that runs it. */
  lemma StartBalance(s: State, i: nat, n: Node, m: Node, s': State)
    requires Balanced(s) && i < |s.nodes|
    requires s'.nodes == s.nodes[i := n] + [m] && s'.slots == s.slots
    requires Credit(n) + Credit(m) == Credit(s.nodes[i])
    requires Queueing(n) + Queueing(m) == Queueing(s.nodes[i])
    ensures Balanced(s')
  {
    SumPut(Credit, s.nodes, i, n);
    SumPut(Queueing, s.nodes, i, n);
    SumAppend(Credit, s.nodes[i := n], m);
    SumAppend(Queueing, s.nodes[i := n], m);
  }

  /** A test takes a slot, queues for one or gives one up. */
  lemma SlotBalance(s: State, a: Action)
    requires Tree(s) && Balanced(s) && Enabled(s, a) && (a.Enter? || a.ReleaseSlot? || a.Reenter?)
    ensures Balanced(Step(s, a))
  {
    assert Holds(s, a.n);
    PutBalance(s, a.n, Step(s, a).nodes[a.n], Step(s, a));
  }

  lemma OneNodeBalance(s: State, a: Action)
    requires Tree(s) && Balanced(s) && Enabled(s, a)
    requires !(a.Spawn? || a.NextTeardown? || a.Park? || a.HandOff? || a.Finish?)
    requires !(a.Enter? || a.ReleaseSlot? || a.Reenter?)
    ensures Balanced(Step(s, a))
  {
    assert Holds(s, a.n);
    PutBalance(s, a.n, Step(s, a).nodes[a.n], Step(s, a));
  }

  lemma HandOffBalance(s: State, a: Action)
    requires Tree(s) && Balanced(s) && Enabled(s, a) && a.HandOff?
    ensures Balanced(Step(s, a))
  {
    assert Holds(s, a.n) && Holds(s, a.to);
    var n, m := s.nodes[a.n], s.nodes[a.to];
    HandOffCredit(n, m);
    PairBalance(s, a.n, HandsOver(n), a.to, TakesOver(m), Step(s, a));
  }

  function HandsOver(n: Node): Node
    requires n.phase.HandingOff?
  {
    n.(phase := AfterRelease(n, n.phase.waits))
  }

  function TakesOver(m: Node): Node {
    m.(phase := if m.phase == Queued then Body else Teardowns(|m.teardowns|))
  }

  lemma HandOffCredit(n: Node, m: Node)
    requires Local(n) && Local(m) && n.phase.HandingOff? && (m.phase == Queued || m.phase == Requeued)
    ensures Credit(HandsOver(n)) + Credit(TakesOver(m)) == Credit(n) + Credit(m)
    ensures Queueing(HandsOver(n)) + Queueing(TakesOver(m)) == Queueing(n) + Queueing(m)
  {
  }

  lemma ParkBalance(s: State, a: Action)
    requires Tree(s) && Balanced(s) && Enabled(s, a) && a.Park?
    ensures Balanced(Step(s, a))
  {
    var s', p := Step(s, a), s.nodes[a.n].parent;
    assert Holds(s, a.n) && Holds(s, p);
    PairBalance(s, p, s'.nodes[p], a.n, s'.nodes[a.n], s');
  }

  lemma StartsBalance(s: State, a: Action)
    requires Tree(s) && Balanced(s) && Enabled(s, a) && (a.Spawn? || a.NextTeardown?)
    ensures Balanced(Step(s, a))
  {
    var s' := Step(s, a);
    assert Holds(s, a.n);
    if a.NextTeardown? && s.nodes[a.n].phase.left == 0 {
      PutBalance(s, a.n, s'.nodes[a.n], s');
    } else {
      StartBalance(s, a.n, s'.nodes[a.n], s'.nodes[|s.nodes|], s');
    }
  }

  lemma FinishBalance(s: State, a: Action)
    requires Tree(s) && Balanced(s) && Enabled(s, a) && a.Finish?
    ensures Balanced(Step(s, a))
  {
    var s', n := Step(s, a), s.nodes[a.n];
    assert Holds(s, a.n);
    if n.kind == Root || n.isParallel {
      PutBalance(s, a.n, s'.nodes[a.n], s');
    } else {
      assert Holds(s, n.parent);
      PairBalance(s, n.parent, s'.nodes[n.parent], a.n, s'.nodes[a.n], s');
    }
  }

  lemma StepBalance(s: State, a: Action)
    requires Tree(s) && Balanced(s) && Enabled(s, a)
    ensures Balanced(Step(s, a)) && Step(s, a).slots.maxParallel == s.slots.maxParallel
  {
    if a.Spawn? || a.NextTeardown? {
      StartsBalance(s, a);
    } else if a.Park? {
      ParkBalance(s, a);
    } else if a.HandOff? {
      HandOffBalance(s, a);
    } else if a.Finish? {
      FinishBalance(s, a);
    } else if a.Enter? || a.ReleaseSlot? || a.Reenter? {
      SlotBalance(s, a);
    } else {
      OneNodeBalance(s, a);
    }
  }
}
