/** Runs of a tree of tests, as atomic steps over the nodes of the tree.

    Every test runs in a goroutine of its own, from its body to the closure that stops it.
    Channel operations are steps of both sides at once: `done` joins a child to whoever
    receives from it, the slot channel joins a test that hands its slot over to one that waits
    for it, and the barrier of a node is closed once. Test bodies are arbitrary: they run
    subtests, turn parallel, register teardowns and cleanups, and end, in any order. The nodes
    are made by `Run`, without a retry policy. */
module Scheduler {
  import opened Context

  datatype Kind = Root | Subtest | Teardown

  /** Where the goroutine of a node is. */
  datatype Phase =
    | Body                                // in the test function
    | AwaitSubtest(child: nat)            // Run: waits for a subtest to end or to turn parallel
    | Parking                             // Parallel: about to release the calling test
    | AwaitBarrier                        // Parallel: waits for the parent's body to end
    | Entering                            // Parallel: about to take a slot
    | Queued                              // Parallel: waits to be handed a slot
    | Collecting                          // the body has ended
    | Releasing(waits: bool)              // about to release; waits: there are subtests to wait for
    | HandingOff(waits: bool)             // hands its slot to a waiting test
    | OpeningBarrier
    | AwaitSubtests
    | Reentering                          // about to take a slot again
    | Requeued                            // waits to be handed a slot again
    | Teardowns(left: nat)
    | AwaitTeardown(left: nat, child: nat)
    | Cleanups(left: nat)
    | Finishing                           // about to send done for the last time
    | Finished

  datatype Node = Node(
    parent: nat,
    kind: Kind,
    isParallel: bool,
    phase: Phase,
    children: seq<nat>,
    teardowns: seq<string>,
    cleanups: seq<string>,
    barrierClosed: bool,
    // Whether this node runs on a slot: a sequential subtest runs on its parent's, a parallel
    // one on its own, and the teardowns of a parallel test on none.
    onSlot: bool)
  {
    /** Has left the test that ran it. */
    predicate Detached() {
      isParallel && phase != Parking
    }

    predicate Finished() {
      phase == Phase.Finished
    }
  }

  /** What an observer of the run sees. */
  datatype Event =
    | Spawned(parent: nat, child: nat)
    | Parked(parent: nat, child: nat)
    | Resumed(parent: nat, child: nat)
    | BodyEnded(node: nat)
    | TeardownAdded(node: nat, name: string)
    | CleanupAdded(node: nat, name: string)
    | TeardownRun(node: nat, name: string, child: nat)
    | CleanupRun(node: nat, name: string)
    | Done(node: nat)

  datatype State = State(slots: Slots, nodes: seq<Node>, log: seq<Event>) {
    predicate Has(n: nat) {
      n < |nodes|
    }

    predicate At(n: nat, phase: Phase) {
      n < |nodes| && nodes[n].phase == phase
    }

    function Put(n: nat, node: Node): State
      requires Has(n)
    {
      this.(nodes := nodes[n := node])
    }

    function Move(n: nat, phase: Phase): State
      requires Has(n)
    {
      Put(n, nodes[n].(phase := phase))
    }

    function Log(e: Event): State {
      this.(log := log + [e])
    }

    /** Subtests that turned parallel, among those the node has seen. */
    predicate HasParallelChild(n: nat)
      requires Has(n)
    {
      exists c <- nodes[n].children :: c < |nodes| && nodes[c].isParallel
    }

    predicate ParallelChildrenFinished(n: nat)
      requires Has(n)
    {
      forall c <- nodes[n].children :: c < |nodes| && nodes[c].isParallel ==> nodes[c].Finished()
    }
  }

  function Init(maxParallel: int): State {
    State(Slots(maxParallel, 1, 0), [Node(0, Root, false, Body, [], [], [], false, true)], [])
  }

  datatype Action =
    | Spawn(n: nat)
    | AddTeardown(n: nat, name: string)
    | AddCleanup(n: nat, name: string)
    | CallParallel(n: nat)
    | Park(n: nat)
    | PassBarrier(n: nat)
    | Enter(n: nat)
    | EndBody(n: nat)
    | Collect(n: nat)
    | ReleaseSlot(n: nat)
    | HandOff(n: nat, to: nat)
    | OpenBarrier(n: nat)
    | SubtestsOver(n: nat)
    | Reenter(n: nat)
    | NextTeardown(n: nat)
    | NextCleanup(n: nat)
    | Finish(n: nat)

  /** Before the loop over the teardowns, in which an index was fixed. */
  predicate BeforeTeardowns(p: Phase) {
    !(p.Teardowns? || p.AwaitTeardown?) && BeforeCleanups(p)
  }

  predicate BeforeCleanups(p: Phase) {
    !(p.Cleanups? || p.Finishing? || p.Finished?)
  }

  predicate Enabled(s: State, a: Action) {
    a.n < |s.nodes| &&
    var n := s.nodes[a.n];
    match a
    case Spawn(_) => n.phase == Body
    case AddTeardown(_, _) => BeforeTeardowns(n.phase)
    case AddCleanup(_, _) => BeforeCleanups(n.phase)
    // The root has no caller to release, a second call panics, and a teardown has nobody to
    // wait for it once it is parallel.
    case CallParallel(_) => n.phase == Body && n.kind == Subtest && !n.isParallel
    case Park(c) => n.phase == Parking && s.At(n.parent, AwaitSubtest(c))
    case PassBarrier(_) => n.phase == AwaitBarrier && s.Has(n.parent) && s.nodes[n.parent].barrierClosed
    case Enter(_) => n.phase == Entering
    case EndBody(_) => n.phase == Body
    case Collect(_) => n.phase == Collecting
    case ReleaseSlot(_) => n.phase.Releasing?
    case HandOff(_, to) => n.phase.HandingOff? && (s.At(to, Queued) || s.At(to, Requeued))
    case OpenBarrier(_) => n.phase == OpeningBarrier
    case SubtestsOver(i) => n.phase == AwaitSubtests && s.ParallelChildrenFinished(i)
    case Reenter(_) => n.phase == Reentering
    case NextTeardown(_) => n.phase.Teardowns? && n.phase.left <= |n.teardowns|
    case NextCleanup(_) => n.phase.Cleanups? && n.phase.left <= |n.cleanups|
    case Finish(c) =>
      n.phase == Finishing &&
      // The root is awaited by the runner, a parallel test by a goroutine of its parent's.
      (n.kind == Root || n.isParallel || s.At(n.parent, AwaitSubtest(c))
       || (s.Has(n.parent) && s.nodes[n.parent].phase.AwaitTeardown? && s.nodes[n.parent].phase.child == c))
  }

  function Child(parent: nat, kind: Kind, onSlot: bool): Node {
    Node(parent, kind, false, Body, [], [], [], false, onSlot)
  }

  /** Where a node goes on after it has given up its slot. */
  function AfterRelease(n: Node, waits: bool): Phase {
    if waits then OpeningBarrier else Teardowns(|n.teardowns|)
  }

  function Step(s: State, a: Action): State
    requires Enabled(s, a)
  {
    var n := s.nodes[a.n];
    match a
    case Spawn(p) =>
      var c := |s.nodes|;
      var s' := s.Move(p, AwaitSubtest(c));
      s'.(nodes := s'.nodes + [Child(p, Subtest, n.onSlot)]).Log(Spawned(p, c))
    case AddTeardown(i, name) => s.Put(i, n.(teardowns := n.teardowns + [name])).Log(TeardownAdded(i, name))
    case AddCleanup(i, name) => s.Put(i, n.(cleanups := n.cleanups + [name])).Log(CleanupAdded(i, name))
    case CallParallel(i) => s.Put(i, n.(isParallel := true, phase := Parking))
    case Park(c) =>
      var p := s.nodes[n.parent];
      s.Put(n.parent, p.(phase := Body, children := p.children + [c]))
       .Put(c, n.(phase := AwaitBarrier, onSlot := true))
       .Log(Parked(n.parent, c))
    case PassBarrier(c) => s.Move(c, Entering)
    case Enter(c) =>
      if s.slots.running < s.slots.maxParallel then
        s.Move(c, Body).(slots := s.slots.WaitParallel()).Log(Resumed(n.parent, c))
      else
        s.Move(c, Queued).(slots := s.slots.WaitParallel())
    case EndBody(i) => s.Move(i, Collecting).Log(BodyEnded(i))
    case Collect(i) =>
      s.Move(i, if s.HasParallelChild(i) then Releasing(true)
                else if n.isParallel then Releasing(false)
                else Teardowns(|n.teardowns|))
    case ReleaseSlot(i) =>
      var waits := n.phase.waits;
      s.Move(i, if s.slots.numWaiting == 0 then AfterRelease(n, waits) else HandingOff(waits))
       .(slots := s.slots.Release())
    case HandOff(i, to) =>
      var s' := s.Move(i, AfterRelease(n, n.phase.waits));
      var m := s'.nodes[to];
      if m.phase == Queued then s'.Move(to, Body).Log(Resumed(m.parent, to))
      else s'.Move(to, Teardowns(|m.teardowns|))
    case OpenBarrier(i) => s.Put(i, n.(phase := AwaitSubtests, barrierClosed := true))
    case SubtestsOver(i) => s.Move(i, if n.isParallel then Teardowns(|n.teardowns|) else Reentering)
    case Reenter(i) =>
      s.Move(i, if s.slots.running < s.slots.maxParallel then Teardowns(|n.teardowns|) else Requeued)
       .(slots := s.slots.WaitParallel())
    case NextTeardown(i) =>
      var left := n.phase.left;
      if left == 0 then s.Move(i, Cleanups(|n.cleanups|))
      else
        var c := |s.nodes|;
        var s' := s.Move(i, AwaitTeardown(left - 1, c));
        s'.(nodes := s'.nodes + [Child(i, Teardown, n.onSlot && !n.isParallel)])
          .Log(TeardownRun(i, n.teardowns[left - 1], c))
    case NextCleanup(i) =>
      var left := n.phase.left;
      if left == 0 then s.Move(i, Finishing)
      else s.Move(i, Cleanups(left - 1)).Log(CleanupRun(i, n.cleanups[left - 1]))
    case Finish(c) =>
      var s' := s.Move(c, Phase.Finished).Log(Done(c));
      if n.kind == Root || n.isParallel then s'
      else
        var p := s.nodes[n.parent];
        var next := if p.phase.AwaitTeardown? then Teardowns(p.phase.left) else Body;
        s'.Put(n.parent, p.(phase := next, children := p.children + [c]))
  }

  /** The state after a sequence of actions, when each is enabled in its turn. */
  predicate Runs(s: State, actions: seq<Action>)
    decreases |actions|
  {
    actions == [] || (Enabled(s, actions[0]) && Runs(Step(s, actions[0]), actions[1..]))
  }

  function Exec(s: State, actions: seq<Action>): State
    requires Runs(s, actions)
    decreases |actions|
  {
    if actions == [] then s else Exec(Step(s, actions[0]), actions[1..])
  }
}
