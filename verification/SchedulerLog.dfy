/** What the log of a run says, and how it mirrors the nodes. */
module SchedulerLog {
  import opened Scheduler
  import opened SchedulerInvariant

  /** Names of the teardowns registered with a node, in order; of those that ran; and both for cleanups. */
  datatype Names = Names(registered: seq<string>, ran: seq<string>, cleanups: seq<string>, cleanupsRan: seq<string>)

  const NO_NAMES := Names([], [], [], [])

  function Noted(names: Names, e: Event, n: nat): Names {
    if e.TeardownAdded? && e.node == n then names.(registered := names.registered + [e.name])
    else if e.TeardownRun? && e.node == n then names.(ran := names.ran + [e.name])
    else if e.CleanupAdded? && e.node == n then names.(cleanups := names.cleanups + [e.name])
    else if e.CleanupRun? && e.node == n then names.(cleanupsRan := names.cleanupsRan + [e.name])
    else names
  }

  /** What a log says about the names of a node. */
  function Says(log: seq<Event>, n: nat): Names {
    if log == [] then NO_NAMES else Noted(Says(log[..|log| - 1], n), log[|log| - 1], n)
  }

  function Reverse(s: seq<string>): seq<string> {
    if s == [] then [] else Reverse(s[1..]) + [s[0]]
  }

  lemma {:induction false} ReverseAt(s: seq<string>, k: nat)
    requires k < |s|
    ensures |Reverse(s)| == |s| && Reverse(s)[k] == s[|s| - 1 - k]
  {
    if |s| > 1 {
      ReverseAt(s[1..], if k < |s| - 1 then k else 0);
    }
  }

  /** The event of a step, if it has one. */
  function Emitted(s: State, a: Action): (es: seq<Event>)
    requires Enabled(s, a)
  {
    var n := s.nodes[a.n];
    match a
    case Spawn(p) => [Spawned(p, |s.nodes|)]
    case AddTeardown(i, name) => [TeardownAdded(i, name)]
    case AddCleanup(i, name) => [CleanupAdded(i, name)]
    case Park(c) => [Parked(n.parent, c)]
    case Enter(c) => if s.slots.running < s.slots.maxParallel then [Resumed(n.parent, c)] else []
    case EndBody(i) => [BodyEnded(i)]
    case HandOff(i, to) => if s.nodes[to].phase == Queued then [Resumed(s.nodes[to].parent, to)] else []
    case NextTeardown(i) =>
      if n.phase.left == 0 then [] else [TeardownRun(i, n.teardowns[n.phase.left - 1], |s.nodes|)]
    case NextCleanup(i) => if n.phase.left == 0 then [] else [CleanupRun(i, n.cleanups[n.phase.left - 1])]
    case Finish(c) => [Done(c)]
    case CallParallel(_) => []
    case PassBarrier(_) => []
    case Collect(_) => []
    case ReleaseSlot(_) => []
    case OpenBarrier(_) => []
    case SubtestsOver(_) => []
    case Reenter(_) => []
  }

  lemma StepLog(s: State, a: Action)
    requires Enabled(s, a)
    ensures Step(s, a).log == s.log + Emitted(s, a)
  {
  }

  /** How the log and the nodes mirror each other. */
  ghost predicate Recorded(s: State) {
    && (forall c: nat :: Done(c) in s.log <==> s.Has(c) && s.nodes[c].Finished())
    && (forall c: nat :: BodyEnded(c) in s.log <==> s.Has(c) && PastBody(s.nodes[c].phase))
    && (forall p: nat, c: nat :: Spawned(p, c) in s.log <==> IsChild(s, p, c) && s.nodes[c].kind == Subtest)
    && (forall p: nat, c: nat :: Parked(p, c) in s.log <==> IsChild(s, p, c) && s.nodes[c].Detached())
    && (forall p: nat, c: nat, name ::
          TeardownRun(p, name, c) in s.log ==> IsChild(s, p, c) && s.nodes[c].kind == Teardown)
  }

  lemma StepFinished(s: State, a: Action, c: nat)
    requires Tree(s) && Enabled(s, a) && c < |Step(s, a).nodes|
    ensures Step(s, a).nodes[c].Finished() <==> (s.Has(c) && s.nodes[c].Finished()) || Done(c) in Emitted(s, a)
  {
    if a.HandOff? || a.Park? || a.Finish? {
      PairFinished(s, a, c);
    } else {
      OwnFinished(s, a, c);
    }
  }

  lemma PairFinished(s: State, a: Action, c: nat)
    requires Tree(s) && Enabled(s, a) && c < |s.nodes| && (a.HandOff? || a.Park? || a.Finish?)
    ensures Step(s, a).nodes[c].Finished() <==> s.nodes[c].Finished() || Done(c) in Emitted(s, a)
  {
  }

  lemma OwnFinished(s: State, a: Action, c: nat)
    requires Enabled(s, a) && c < |Step(s, a).nodes| && !(a.HandOff? || a.Park? || a.Finish?)
    ensures Step(s, a).nodes[c].Finished() <==> s.Has(c) && s.nodes[c].Finished()
    ensures Done(c) !in Emitted(s, a)
  {
  }

  lemma StepPastBody(s: State, a: Action, c: nat)
    requires Tree(s) && Enabled(s, a) && c < |Step(s, a).nodes|
    ensures PastBody(Step(s, a).nodes[c].phase) <==>
      (s.Has(c) && PastBody(s.nodes[c].phase)) || BodyEnded(c) in Emitted(s, a)
  {
    if a.HandOff? || a.Park? || a.Finish? {
      PairPastBody(s, a, c);
    } else {
      OwnPastBody(s, a, c);
    }
  }

  lemma PairPastBody(s: State, a: Action, c: nat)
    requires Tree(s) && Enabled(s, a) && c < |Step(s, a).nodes| && (a.HandOff? || a.Park? || a.Finish?)
    ensures PastBody(Step(s, a).nodes[c].phase) <==> PastBody(s.nodes[c].phase)
    ensures Emitted(s, a) == [] || !Emitted(s, a)[0].BodyEnded?
  {
    assert Holds(s, a.n);
  }

  lemma OwnPastBody(s: State, a: Action, c: nat)
    requires Enabled(s, a) && c < |Step(s, a).nodes| && !(a.HandOff? || a.Park? || a.Finish?)
    ensures PastBody(Step(s, a).nodes[c].phase) <==>
      (s.Has(c) && PastBody(s.nodes[c].phase)) || BodyEnded(c) in Emitted(s, a)
  {
  }

  lemma StepChildren(s: State, a: Action, p: nat, c: nat)
    requires Tree(s) && Enabled(s, a)
    ensures IsChild(Step(s, a), p, c) && Step(s, a).nodes[c].kind == Subtest <==>
      (IsChild(s, p, c) && s.nodes[c].kind == Subtest) || Spawned(p, c) in Emitted(s, a)
  {
  }

  lemma OthersDetached(s: State, a: Action, c: nat)
    requires Tree(s) && Enabled(s, a) && !a.Park? && c < |s.nodes|
    ensures Step(s, a).nodes[c].Detached() == s.nodes[c].Detached()
  {
    if a.HandOff? || a.Finish? {
      PairDetached(s, a, c);
    } else if a.n == c {
      OwnDetached(s, a);
    }
  }

  lemma PairDetached(s: State, a: Action, c: nat)
    requires Tree(s) && Enabled(s, a) && (a.HandOff? || a.Finish?) && c < |s.nodes|
    ensures Step(s, a).nodes[c].Detached() == s.nodes[c].Detached()
  {
    assert Holds(s, a.n);
  }

  lemma OwnDetached(s: State, a: Action)
    requires Tree(s) && Enabled(s, a) && !(a.HandOff? || a.Park? || a.Finish?)
    ensures Step(s, a).nodes[a.n].Detached() == s.nodes[a.n].Detached()
  {
    assert Holds(s, a.n);
  }

  lemma ParkDetached(s: State, a: Action, p: nat, c: nat)
    requires Tree(s) && Enabled(s, a) && a.Park?
    ensures IsChild(Step(s, a), p, c) && Step(s, a).nodes[c].Detached() <==>
      (IsChild(s, p, c) && s.nodes[c].Detached()) || Parked(p, c) in Emitted(s, a)
  {
    assert Holds(s, a.n);
  }

  lemma StepDetached(s: State, a: Action, p: nat, c: nat)
    requires Tree(s) && Enabled(s, a)
    ensures IsChild(Step(s, a), p, c) && Step(s, a).nodes[c].Detached() <==>
      (IsChild(s, p, c) && s.nodes[c].Detached()) || Parked(p, c) in Emitted(s, a)
  {
    if a.Park? {
      ParkDetached(s, a, p, c);
    } else if c < |s.nodes| {
      OthersDetached(s, a, c);
      StepKeeps(s, a, c);
    }
  }

  lemma StepTeardowns(s: State, a: Action, p: nat, name: string, c: nat)
    requires Tree(s) && Enabled(s, a) && TeardownRun(p, name, c) in Emitted(s, a)
    ensures IsChild(Step(s, a), p, c) && Step(s, a).nodes[c].kind == Teardown
  {
  }

  lemma StepRecorded(s: State, a: Action)
    requires Tree(s) && Recorded(s) && Enabled(s, a)
    ensures Recorded(Step(s, a))
  {
    var s' := Step(s, a);
    StepLog(s, a);
    forall c: nat ensures Done(c) in s'.log <==> s'.Has(c) && s'.nodes[c].Finished() {
      if s'.Has(c) { StepFinished(s, a, c); }
    }
    forall c: nat ensures BodyEnded(c) in s'.log <==> s'.Has(c) && PastBody(s'.nodes[c].phase) {
      if s'.Has(c) { StepPastBody(s, a, c); }
    }
    forall p: nat, c: nat
      ensures Spawned(p, c) in s'.log <==> IsChild(s', p, c) && s'.nodes[c].kind == Subtest
    {
      StepChildren(s, a, p, c);
    }
    forall p: nat, c: nat ensures Parked(p, c) in s'.log <==> IsChild(s', p, c) && s'.nodes[c].Detached() {
      StepDetached(s, a, p, c);
    }
    forall p: nat, c: nat, name | TeardownRun(p, name, c) in s'.log
      ensures IsChild(s', p, c) && s'.nodes[c].kind == Teardown
    {
      if TeardownRun(p, name, c) in s.log {
        StepKeeps(s, a, c);
      } else {
        StepTeardowns(s, a, p, name, c);
      }
    }
  }

  /** Teardowns of a node that have not run yet; the last ones run first. */
  function TeardownsLeft(n: Node): nat {
    if BeforeTeardowns(n.phase) then |n.teardowns|
    else if (n.phase.Teardowns? || n.phase.AwaitTeardown?) && n.phase.left <= |n.teardowns| then n.phase.left
    else 0
  }

  function CleanupsLeft(n: Node): nat {
    if BeforeCleanups(n.phase) then |n.cleanups|
    else if n.phase.Cleanups? && n.phase.left <= |n.cleanups| then n.phase.left
    else 0
  }

  /** What the log must say about a node. */
  function NamesIn(n: Node): Names {
    Names(n.teardowns, Reverse(n.teardowns[TeardownsLeft(n)..]), n.cleanups, Reverse(n.cleanups[CleanupsLeft(n)..]))
  }

  ghost predicate NamedAt(s: State, i: nat) {
    Says(s.log, i) == if s.Has(i) then NamesIn(s.nodes[i]) else NO_NAMES
  }

  ghost predicate Named(s: State) {
    forall i: nat :: NamedAt(s, i)
  }

  predicate Naming(a: Action) {
    a.AddTeardown? || a.AddCleanup? || a.NextTeardown? || a.NextCleanup?
  }

  lemma SaysMore(log: seq<Event>, e: Event, n: nat)
    ensures Says(log + [e], n) == Noted(Says(log, n), e, n)
  {
    assert (log + [e])[..|log|] == log;
  }

  lemma StepSays(s: State, a: Action, i: nat)
    requires Enabled(s, a)
    ensures var es := Emitted(s, a);
      Says(Step(s, a).log, i) == if es == [] then Says(s.log, i) else Noted(Says(s.log, i), es[0], i)
  {
    StepLog(s, a);
    var es := Emitted(s, a);
    if es == [] {
      assert s.log + es == s.log;
    } else {
      assert es == [es[0]];
      SaysMore(s.log, es[0], i);
    }
  }

  datatype Lefts = Lefts(teardowns: nat, cleanups: nat)

  function LeftsOf(n: Node): Lefts {
    Lefts(TeardownsLeft(n), CleanupsLeft(n))
  }

  lemma PairSameLefts(s: State, a: Action, i: nat)
    requires Tree(s) && Enabled(s, a) && i < |s.nodes| && (a.HandOff? || a.Park?)
    ensures LeftsOf(Step(s, a).nodes[i]) == LeftsOf(s.nodes[i])
  {
    assert Holds(s, a.n);
  }

  lemma FinishSameLefts(s: State, a: Action, i: nat)
    requires Tree(s) && Enabled(s, a) && i < |s.nodes| && a.Finish?
    ensures LeftsOf(Step(s, a).nodes[i]) == LeftsOf(s.nodes[i])
  {
    assert Holds(s, a.n);
  }

  lemma OwnSameLefts(s: State, a: Action)
    requires Tree(s) && Enabled(s, a) && !Naming(a) && !(a.HandOff? || a.Park? || a.Finish?)
    ensures LeftsOf(Step(s, a).nodes[a.n]) == LeftsOf(s.nodes[a.n])
  {
    assert Holds(s, a.n);
  }

  lemma SameLefts(s: State, a: Action, i: nat)
    requires Tree(s) && Enabled(s, a) && i < |s.nodes| && (i != a.n || !Naming(a))
    ensures LeftsOf(Step(s, a).nodes[i]) == LeftsOf(s.nodes[i])
  {
    if a.HandOff? || a.Park? {
      PairSameLefts(s, a, i);
    } else if a.Finish? {
      FinishSameLefts(s, a, i);
    } else if i == a.n {
      OwnSameLefts(s, a);
    }
  }

  lemma SameLists(s: State, a: Action, i: nat)
    requires Enabled(s, a) && i < |s.nodes| && (i != a.n || !(a.AddTeardown? || a.AddCleanup?))
    ensures Step(s, a).nodes[i].teardowns == s.nodes[i].teardowns && Step(s, a).nodes[i].cleanups == s.nodes[i].cleanups
  {
    if a.Park? || a.HandOff? || a.Finish? {
      PairLists(s, a, i);
    } else if a.n == i {
      OwnLists(s, a);
    }
  }

  lemma PairLists(s: State, a: Action, i: nat)
    requires Enabled(s, a) && i < |s.nodes| && (a.Park? || a.HandOff? || a.Finish?)
    ensures Step(s, a).nodes[i].teardowns == s.nodes[i].teardowns && Step(s, a).nodes[i].cleanups == s.nodes[i].cleanups
  {
  }

  lemma OwnLists(s: State, a: Action)
    requires Enabled(s, a) && !(a.Park? || a.HandOff? || a.Finish? || a.AddTeardown? || a.AddCleanup?)
    ensures Step(s, a).nodes[a.n].teardowns == s.nodes[a.n].teardowns
    ensures Step(s, a).nodes[a.n].cleanups == s.nodes[a.n].cleanups
  {
  }

  /** An event that says nothing about the names of `i`. */
  predicate Nameless(e: Event, i: nat) {
    !((e.TeardownAdded? || e.TeardownRun? || e.CleanupAdded? || e.CleanupRun?) && e.node == i)
  }

  lemma QuietEvent(s: State, a: Action, i: nat)
    requires Enabled(s, a) && (i != a.n || !Naming(a)) && Emitted(s, a) != []
    ensures Nameless(Emitted(s, a)[0], i)
  {
  }

  lemma QuietSays(s: State, a: Action, i: nat)
    requires Enabled(s, a) && (i != a.n || !Naming(a))
    ensures Says(Step(s, a).log, i) == Says(s.log, i)
  {
    StepSays(s, a, i);
    if Emitted(s, a) != [] {
      QuietEvent(s, a, i);
    }
  }

  /** A step that registers or runs no teardown or cleanup of `i` changes no names of `i`. */
  lemma QuietNames(s: State, a: Action, i: nat)
    requires Tree(s) && Enabled(s, a) && i < |s.nodes| && (i != a.n || !Naming(a))
    ensures NamesIn(Step(s, a).nodes[i]) == NamesIn(s.nodes[i])
  {
    SameLists(s, a, i);
    SameLefts(s, a, i);
    assert TeardownsLeft(Step(s, a).nodes[i]) == TeardownsLeft(s.nodes[i]);
  }

  lemma ReverseLast(s: seq<string>, left: nat)
    requires 0 < left <= |s|
    ensures Reverse(s[left - 1..]) == Reverse(s[left..]) + [s[left - 1]]
  {
    assert s[left - 1..][1..] == s[left..];
  }

  lemma AddTeardownNames(n: Node, i: nat, name: string)
    requires BeforeTeardowns(n.phase)
    ensures NamesIn(n.(teardowns := n.teardowns + [name])) == Noted(NamesIn(n), TeardownAdded(i, name), i)
  {
  }

  lemma AddCleanupNames(n: Node, i: nat, name: string)
    requires BeforeCleanups(n.phase)
    ensures NamesIn(n.(cleanups := n.cleanups + [name])) == Noted(NamesIn(n), CleanupAdded(i, name), i)
  {
  }

  lemma NextTeardownNames(n: Node, i: nat, c: nat)
    requires n.phase.Teardowns? && 0 < n.phase.left <= |n.teardowns|
    ensures NamesIn(n.(phase := AwaitTeardown(n.phase.left - 1, c)))
      == Noted(NamesIn(n), TeardownRun(i, n.teardowns[n.phase.left - 1], c), i)
  {
    ReverseLast(n.teardowns, n.phase.left);
  }

  lemma NextCleanupNames(n: Node, i: nat)
    requires n.phase.Cleanups? && 0 < n.phase.left <= |n.cleanups|
    ensures NamesIn(n.(phase := Cleanups(n.phase.left - 1)))
      == Noted(NamesIn(n), CleanupRun(i, n.cleanups[n.phase.left - 1]), i)
  {
    ReverseLast(n.cleanups, n.phase.left);
  }

  lemma NoCleanupNames(n: Node)
    requires n.phase == Cleanups(0)
    ensures NamesIn(n.(phase := Finishing)) == NamesIn(n)
  {
    assert n.cleanups[0..] == n.cleanups;
  }

  /** What a step that registers or runs names does to the node. */
  ghost predicate NamesStep(s: State, a: Action)
    requires Enabled(s, a) && a.n < |Step(s, a).nodes|
  {
    var es := Emitted(s, a);
    NamesIn(Step(s, a).nodes[a.n]) ==
      if es == [] then NamesIn(s.nodes[a.n]) else Noted(NamesIn(s.nodes[a.n]), es[0], a.n)
  }

  lemma RegisterStep(s: State, a: Action)
    requires Enabled(s, a) && (a.AddTeardown? || a.AddCleanup?)
    ensures NamesStep(s, a)
  {
    if a.AddTeardown? {
      AddTeardownNames(s.nodes[a.n], a.n, a.name);
    } else {
      AddCleanupNames(s.nodes[a.n], a.n, a.name);
    }
  }

  lemma TeardownStep(s: State, a: Action)
    requires Enabled(s, a) && a.NextTeardown?
    ensures NamesStep(s, a)
  {
    if s.nodes[a.n].phase.left > 0 {
      NextTeardownNames(s.nodes[a.n], a.n, |s.nodes|);
    }
  }

  lemma CleanupMoves(s: State, a: Action)
    requires Enabled(s, a) && a.NextCleanup?
    ensures var n := s.nodes[a.n]; var left := n.phase.left;
      if left == 0 then Step(s, a).nodes[a.n] == n.(phase := Finishing) && Emitted(s, a) == []
      else
        && Step(s, a).nodes[a.n] == n.(phase := Cleanups(left - 1))
        && Emitted(s, a) == [CleanupRun(a.n, n.cleanups[left - 1])]
  {
  }

  lemma CleanupStep(s: State, a: Action)
    requires Enabled(s, a) && a.NextCleanup?
    ensures NamesStep(s, a)
  {
    CleanupMoves(s, a);
    if s.nodes[a.n].phase.left > 0 {
      NextCleanupNames(s.nodes[a.n], a.n);
    } else {
      NoCleanupNames(s.nodes[a.n]);
    }
  }

  lemma NamingStep(s: State, a: Action)
    requires Enabled(s, a) && Naming(a)
    ensures a.n < |Step(s, a).nodes| && NamesStep(s, a)
  {
    if a.NextTeardown? {
      TeardownStep(s, a);
    } else if a.NextCleanup? {
      CleanupStep(s, a);
    } else {
      RegisterStep(s, a);
    }
  }

  /** A test that has just been made is in its body, with nothing registered. */
  lemma NewInBody(s: State, a: Action, i: nat)
    requires Enabled(s, a) && |s.nodes| <= i < |Step(s, a).nodes|
    ensures var n := Step(s, a).nodes[i]; n.phase == Body && n.teardowns == [] && n.cleanups == []
  {
  }

  /** So it has no names. */
  lemma NewNode(s: State, a: Action, i: nat)
    requires Enabled(s, a) && |s.nodes| <= i < |Step(s, a).nodes|
    ensures NamesIn(Step(s, a).nodes[i]) == NO_NAMES
  {
    NewInBody(s, a, i);
    FreshNames(Step(s, a).nodes[i]);
  }

  lemma FreshNames(n: Node)
    requires n.phase == Body && n.teardowns == [] && n.cleanups == []
    ensures NamesIn(n) == NO_NAMES
  {
  }

  lemma NewNames(s: State, a: Action, i: nat)
    requires NamedAt(s, i) && Enabled(s, a) && i >= |s.nodes|
    ensures NamedAt(Step(s, a), i)
  {
    QuietSays(s, a, i);
    if Step(s, a).Has(i) {
      NewNode(s, a, i);
    }
  }

  lemma StepNames(s: State, a: Action, i: nat)
    requires Tree(s) && NamedAt(s, i) && Enabled(s, a) && i < |s.nodes|
    ensures NamedAt(Step(s, a), i)
  {
    StepKeeps(s, a, i);
    if i == a.n && Naming(a) {
      StepSays(s, a, i);
      NamingStep(s, a);
    } else {
      QuietSays(s, a, i);
      QuietNames(s, a, i);
    }
  }

  lemma StepNamed(s: State, a: Action)
    requires Tree(s) && Named(s) && Enabled(s, a)
    ensures Named(Step(s, a))
  {
    forall i: nat ensures NamedAt(Step(s, a), i) {
      assert NamedAt(s, i);
      if i < |s.nodes| {
        StepNames(s, a, i);
      } else {
        NewNames(s, a, i);
      }
    }
  }
}
