/** What an observer sees: the order of events over whole runs. */
module SchedulerOrder {
  import opened Scheduler
  import opened SchedulerInvariant
  import opened SchedulerLog

  /** Whose doing an event is. */
  function Actor(e: Event): nat {
    match e
    case Spawned(p, _) => p
    case Parked(_, c) => c
    case Resumed(_, c) => c
    case BodyEnded(n) => n
    case TeardownAdded(n, _) => n
    case CleanupAdded(n, _) => n
    case TeardownRun(n, _, _) => n
    case CleanupRun(n, _) => n
    case Done(n) => n
  }

  /** The body has ended, and so has every subtest, and every teardown run so far. */
  ghost predicate Quiet(log: seq<Event>, n: nat) {
    && BodyEnded(n) in log
    && (forall c :: Spawned(n, c) in log ==> Done(c) in log)
    && (forall name, c :: TeardownRun(n, name, c) in log ==> Done(c) in log)
  }

  /** No subtest is awaited. */
  ghost predicate Undisturbed(log: seq<Event>, n: nat) {
    forall c :: Spawned(n, c) in log ==> Done(c) in log || Parked(n, c) in log
  }

  /** What must have happened before an event. */
  ghost predicate Justified(log: seq<Event>, e: Event) {
    Done(Actor(e)) !in log && Due(log, Says(log, Actor(e)), e)
  }

  /** The same, given what the log says about the names of the node whose doing the event is. */
  ghost predicate Due(log: seq<Event>, names: Names, e: Event) {
    match e
    case Spawned(n, _) => BodyEnded(n) !in log && Undisturbed(log, n)
    case Parked(p, c) => Spawned(p, c) in log && BodyEnded(p) !in log
    case Resumed(p, c) => Parked(p, c) in log && BodyEnded(p) in log && BodyEnded(c) !in log
    case BodyEnded(n) => BodyEnded(n) !in log && Undisturbed(log, n)
    case TeardownAdded(_, _) => names.ran == []
    case CleanupAdded(_, _) => names.cleanupsRan == []
    case TeardownRun(n, name, _) =>
      Quiet(log, n) && names.cleanupsRan == [] && names.ran + [name] <= Reverse(names.registered)
    case CleanupRun(n, name) =>
      && Quiet(log, n) && names.ran == Reverse(names.registered)
      && names.cleanupsRan + [name] <= Reverse(names.cleanups)
    case Done(n) =>
      Quiet(log, n) && names.ran == Reverse(names.registered) && names.cleanupsRan == Reverse(names.cleanups)
  }

  ghost predicate Ordered(log: seq<Event>) {
    forall k | 0 <= k < |log| :: Justified(log[..k], log[k])
  }

  /** Past its subtests and not in a teardown, a node has nothing left running below it. */
  lemma IsQuiet(s: State, n: nat)
    requires Tree(s) && Recorded(s) && n < |s.nodes|
    requires PastSubtests(s.nodes[n].phase) && !s.nodes[n].phase.AwaitTeardown?
    ensures Quiet(s.log, n)
  {
    forall c: nat | Spawned(n, c) in s.log ensures Done(c) in s.log {
      assert Holds(s, c);
    }
    forall name, c: nat | TeardownRun(n, name, c) in s.log ensures Done(c) in s.log {
      assert Holds(s, c);
    }
  }

  /** In its body, a node waits for no subtest. */
  lemma IsAlone(s: State, n: nat)
    requires Tree(s) && Recorded(s) && n < |s.nodes| && s.nodes[n].phase == Body
    ensures Undisturbed(s.log, n)
  {
    forall c: nat | Spawned(n, c) in s.log ensures Done(c) in s.log || Parked(n, c) in s.log {
      assert Holds(s, c);
    }
  }

  lemma BodyJustified(s: State, a: Action)
    requires Tree(s) && Recorded(s) && Enabled(s, a) && (a.Spawn? || a.EndBody?)
    ensures Justified(s.log, if a.Spawn? then Spawned(a.n, |s.nodes|) else BodyEnded(a.n))
  {
    IsAlone(s, a.n);
  }

  lemma AddTeardownJustified(s: State, a: Action)
    requires Recorded(s) && Named(s) && Enabled(s, a) && a.AddTeardown?
    ensures Justified(s.log, TeardownAdded(a.n, a.name))
  {
    assert NamedAt(s, a.n);
  }

  lemma AddCleanupJustified(s: State, a: Action)
    requires Recorded(s) && Named(s) && Enabled(s, a) && a.AddCleanup?
    ensures Justified(s.log, CleanupAdded(a.n, a.name))
  {
    assert NamedAt(s, a.n);
  }

  lemma ParkJustified(s: State, a: Action)
    requires Tree(s) && Recorded(s) && Enabled(s, a) && a.Park?
    ensures Justified(s.log, Parked(s.nodes[a.n].parent, a.n))
  {
    assert Holds(s, a.n);
  }

  lemma ResumeJustified(s: State, c: nat)
    requires Tree(s) && Recorded(s) && (s.At(c, Entering) || s.At(c, Queued))
    ensures Justified(s.log, Resumed(s.nodes[c].parent, c))
  {
    assert Holds(s, c) && Holds(s, s.nodes[c].parent);
  }

  lemma TeardownJustified(s: State, a: Action)
    requires Tree(s) && Recorded(s) && Named(s) && Enabled(s, a) && a.NextTeardown? && s.nodes[a.n].phase.left > 0
    ensures Justified(s.log, TeardownRun(a.n, s.nodes[a.n].teardowns[s.nodes[a.n].phase.left - 1], |s.nodes|))
  {
    var n := s.nodes[a.n];
    assert NamedAt(s, a.n);
    IsQuiet(s, a.n);
    ReverseLast(n.teardowns, n.phase.left);
    ReversePrefix(n.teardowns, n.phase.left - 1);
  }

  lemma CleanupJustified(s: State, a: Action)
    requires Tree(s) && Recorded(s) && Named(s) && Enabled(s, a) && a.NextCleanup? && s.nodes[a.n].phase.left > 0
    ensures Justified(s.log, CleanupRun(a.n, s.nodes[a.n].cleanups[s.nodes[a.n].phase.left - 1]))
  {
    var n := s.nodes[a.n];
    assert NamedAt(s, a.n) && n.teardowns[0..] == n.teardowns;
    IsQuiet(s, a.n);
    ReverseLast(n.cleanups, n.phase.left);
    ReversePrefix(n.cleanups, n.phase.left - 1);
  }

  lemma FinishJustified(s: State, a: Action)
    requires Tree(s) && Recorded(s) && Named(s) && Enabled(s, a) && a.Finish?
    ensures Justified(s.log, Done(a.n))
  {
    var n := s.nodes[a.n];
    assert NamedAt(s, a.n) && n.teardowns[0..] == n.teardowns && n.cleanups[0..] == n.cleanups;
    IsQuiet(s, a.n);
  }

  lemma {:induction false} ReversePrefix(s: seq<string>, k: nat)
    requires k <= |s|
    ensures Reverse(s[k..]) <= Reverse(s)
  {
    if k > 0 {
      ReverseLast(s, k);
      ReversePrefix(s, k - 1);
    }
  }

  lemma StepJustified(s: State, a: Action)
    requires Tree(s) && Recorded(s) && Named(s) && Enabled(s, a) && Emitted(s, a) != []
    ensures Justified(s.log, Emitted(s, a)[0])
  {
    if a.Spawn? || a.EndBody? {
      BodyJustified(s, a);
    } else if a.AddTeardown? {
      AddTeardownJustified(s, a);
    } else if a.AddCleanup? {
      AddCleanupJustified(s, a);
    } else if a.Park? {
      ParkJustified(s, a);
    } else if a.Enter? {
      ResumeJustified(s, a.n);
    } else if a.HandOff? {
      ResumeJustified(s, a.to);
    } else if a.NextTeardown? {
      TeardownJustified(s, a);
    } else if a.NextCleanup? {
      CleanupJustified(s, a);
    } else {
      FinishJustified(s, a);
    }
  }

  ghost predicate Observed(s: State) {
    Tree(s) && Recorded(s) && Named(s) && Ordered(s.log)
  }

  lemma AppendOrdered(log: seq<Event>, e: Event)
    requires Ordered(log) && Justified(log, e)
    ensures Ordered(log + [e])
  {
    forall k | 0 <= k <= |log| ensures Justified((log + [e])[..k], (log + [e])[k]) {
      assert (log + [e])[..k] == log[..k];
      assert log[..|log|] == log;
    }
  }

  lemma StepOrdered(s: State, a: Action)
    requires Observed(s) && Enabled(s, a)
    ensures Ordered(Step(s, a).log)
  {
    var es := Emitted(s, a);
    StepLog(s, a);
    if es == [] {
      assert s.log + es == s.log;
    } else {
      StepJustified(s, a);
      AppendOrdered(s.log, es[0]);
      assert es == [es[0]];
    }
  }

  lemma StepObserved(s: State, a: Action)
    requires Observed(s) && Enabled(s, a)
    ensures Observed(Step(s, a))
  {
    StepTree(s, a);
    StepRecorded(s, a);
    StepNamed(s, a);
    StepOrdered(s, a);
  }

  lemma {:induction false} RunObserved(s: State, actions: seq<Action>)
    requires Observed(s) && Runs(s, actions)
    ensures Observed(Exec(s, actions))
    decreases |actions|
  {
    if actions != [] {
      StepObserved(s, actions[0]);
      RunObserved(Step(s, actions[0]), actions[1..]);
    }
  }

  /** In every run, every event comes after what must have happened before it. */
  lemma RunOrdered(maxParallel: int, actions: seq<Action>)
    requires Runs(Init(maxParallel), actions)
    ensures Ordered(Exec(Init(maxParallel), actions).log)
  {
    InitTree(maxParallel);
    RunObserved(Init(maxParallel), actions);
  }

  predicate Reversed(ran: seq<string>, registered: seq<string>) {
    |ran| == |registered| && forall k | 0 <= k < |ran| :: ran[k] == registered[|ran| - 1 - k]
  }

  lemma ReverseIsReversed(names: seq<string>)
    ensures Reversed(Reverse(names), names)
  {
    if names != [] {
      ReverseAt(names, 0);
    }
    forall k | 0 <= k < |names| ensures Reverse(names)[k] == names[|names| - 1 - k] {
      ReverseAt(names, k);
    }
  }

  /** When a test is done, all of its teardowns and cleanups have run, the last one registered first. */
  lemma AllRanInReverse(maxParallel: int, actions: seq<Action>, n: nat)
    requires Runs(Init(maxParallel), actions) && Exec(Init(maxParallel), actions).At(n, Finished)
    ensures var names := Says(Exec(Init(maxParallel), actions).log, n);
      Reversed(names.ran, names.registered) && Reversed(names.cleanupsRan, names.cleanups)
  {
    InitTree(maxParallel);
    RunObserved(Init(maxParallel), actions);
    var s := Exec(Init(maxParallel), actions);
    assert NamedAt(s, n);
    assert s.nodes[n].teardowns[0..] == s.nodes[n].teardowns && s.nodes[n].cleanups[0..] == s.nodes[n].cleanups;
    ReverseIsReversed(s.nodes[n].teardowns);
    ReverseIsReversed(s.nodes[n].cleanups);
  }
}
