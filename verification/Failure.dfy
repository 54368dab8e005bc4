/** How failures travel up a tree of tests, how a retried test fails, and what tests leave behind. */
module Failure {

  /** What can be seen of the tests: what they do to the world outside, and where the body of a
      scenario step begins and binds values. What a step does is within that step. */
  datatype Event =
    | Effect(what: string)
    | BodyRun(step: nat)
    | VarsBound(step: nat, value: string)
    | SecretsBound(step: nat, value: string)
    | Within(step: nat, event: Event)

  function AllWithin(step: nat, log: seq<Event>): (all: seq<Event>)
    ensures |all| == |log| && forall i | 0 <= i < |log| :: all[i] == Within(step, log[i])
  {
    seq(|log|, i requires 0 <= i < |log| => Within(step, log[i]))
  }

  /** What a test body does, in order: mark the test as failed or skipped, keep its failures from its
      parent, be seen, run the body of a scenario step, run a subtest, or run one under a retry policy.
      A body also carries a context, which holds a test: its own one, or another one that the body of
      a step has left there. `FailHere` marks that test, and `StopIfFailed` ends the body where that
      test has failed, marking it again. */
  datatype Act =
    | Fail
    | FailHere
    | Skip
    | StopIfFailed
    | Isolate
    | Emit(event: Event)
    | StepBody(index: nat, work: Work)
    | Run(body: seq<Act>)
    | Retry(policy: Policy)

  /** The body of a step. It goes on with the context it was given, or runs a subtest and goes on with
      the context that comes from there, as an included scenario does; what is done to the test of the
      step meanwhile, such as the error of a timeout, are its `own` acts. */
  datatype Work = Direct(acts: seq<Act>) | Include(scenario: seq<Act>, own: seq<Act>)

  /** A policy allows each attempt listed, and one in any case. */
  datatype Policy = Invalid | Attempts(attempts: seq<Attempt>)

  datatype Attempt = Attempt(body: seq<Act>)

  /** The test that a context holds: that of the body, or one below it, which may have failed since
      and may keep its failures to itself. */
  datatype Context = Own | Below(failed: bool, isolated: bool)

  /** A test after its body: whether it failed, whether it told its parent so, whether it keeps its
      failures to itself from now on, whether it was skipped, the test in its context, and what was
      seen of it. */
  datatype Outcome = Outcome(
    failed: bool, told: bool, isolated: bool, skipped: bool, context: Context, log: seq<Event>)
  {
    function Fails(): Outcome {
      this.(failed := true, told := told || !isolated)
    }

    /** The test in the context fails. */
    function FailsHere(): Outcome {
      if context.Own? then Fails()
      else (if context.isolated then this else Fails()).(context := context.(failed := true))
    }

    predicate FailedHere() {
      if context.Own? then failed else context.failed
    }

    /** The result of the test in the context. */
    function Recorded(): TestResult {
      if context.Own? then Result() else if context.failed then Failed else Passed
    }

    /** The context of a step that included a test with this outcome: it comes back only from a test
        that ran to its end without failing. */
    function Back(): Context {
      if failed || skipped then Own else Below(false, isolated)
    }

    /** The outcome of the test that runs another one and sees it end with `o`. */
    function Sees(o: Outcome): Outcome {
      var seen := this.(log := log + o.log);
      if o.told then seen.Fails() else seen
    }

    function Result(): TestResult {
      ResultOf(failed, skipped)
    }

    function InStep(index: nat): Outcome {
      this.(log := [BodyRun(index)] + AllWithin(index, log))
    }

    /** This outcome where `before` has been seen, and perhaps been told, already. */
    function After(before: Outcome): Outcome {
      this.(told := before.told || told, log := before.log + log)
    }

    /** What a test is left with before it goes on. */
    function Marks(): Outcome {
      this.(told := false, log := [])
    }
  }

  datatype TestResult = Passed | Failed | Skipped

  function ResultOf(failed: bool, skipped: bool): TestResult {
    if failed then Failed else if skipped then Skipped else Passed
  }

  const FRESH := Outcome(false, false, false, false, Own, [])

  predicate Stops(o: Outcome, act: Act) {
    act.StopIfFailed? && o.FailedHere()
  }

  function Perform(o: Outcome, body: seq<Act>): Outcome
    decreases body
  {
    if body == [] then o
    else if Stops(o, body[0]) then o.FailsHere()
    else Perform(PerformAct(o, body[0]), body[1..])
  }

  function PerformAct(o: Outcome, act: Act): Outcome
    decreases act
  {
    match act
    case Fail => o.Fails()
    case FailHere => o.FailsHere()
    case Skip => o.(skipped := true)
    case StopIfFailed => o
    case Isolate => o.(isolated := true)
    case Emit(event) => o.(log := o.log + [event])
    case StepBody(index, work) => PerformWork(o.Marks(), work).InStep(index).After(o)
    case Run(body) => o.Sees(Perform(FRESH, body))
    case Retry(policy) => o.Sees(PerformPolicy(policy))
  }

  function PerformWork(o: Outcome, work: Work): Outcome
    decreases work
  {
    match work
    case Direct(acts) => Perform(o.(context := Own), acts).(context := Own)
    case Include(scenario, own) =>
      var inner := Perform(FRESH, scenario);
      Perform(o.(context := Own).Sees(inner), own).(context := inner.Back())
  }

  /** A retried test ends like its last attempt, whose isolation it inherits; each of its attempts
      was seen. */
  function PerformPolicy(policy: Policy): Outcome
    decreases policy
  {
    if policy.Invalid? then FRESH.Fails()
    else
      var last := LastAttempt(policy.attempts);
      Outcome(last.failed, last.failed && !last.isolated, last.isolated, last.skipped && !last.failed, Own, last.log)
  }

  /** Attempts go on until one does not fail, or the policy allows no more. */
  function LastAttempt(attempts: seq<Attempt>): Outcome
    decreases attempts
  {
    if attempts == [] then FRESH
    else
      var o := PerformAttempt(attempts[0]);
      if !o.failed || |attempts| == 1 then o
      else
        var last := LastAttempt(attempts[1..]);
        last.(log := o.log + last.log)
  }

  function PerformAttempt(attempt: Attempt): Outcome
    decreases attempt
  {
    Perform(FRESH, attempt.body)
  }

  /** The parent of every failed test has failed, unless the failure does not travel. */
  ghost predicate Propagated(nodes: set<Node>)
    reads nodes
  {
    forall n <- nodes | n.failed && n.Propagates() :: n.parent in nodes && n.parent.failed
  }

  class Node {
    const parent: Node?
    const retryable: bool // an attempt of its parent
    ghost const rank: nat
    var failed: bool
    var isolated: bool
    var skipped: bool
    var context: Node? // the test that the context of the body holds; null stands for this one

    ghost predicate Rooted()
      decreases rank
    {
      parent != null ==> parent.rank < rank && parent.Rooted()
    }

    /** The test and all those above it. */
    ghost function Chain(): set<Node>
      requires Rooted()
      ensures this in Chain() && forall n <- Chain() :: n.rank <= rank
      decreases rank
    {
      {this} + if parent == null then {} else parent.Chain()
    }

    predicate Propagates()
      reads this`isolated
    {
      parent != null && !retryable && !isolated
    }

    /** The tests that a failure here marks. */
    ghost function Marked(): set<Node>
      requires Rooted()
      reads Chain()`isolated
      decreases rank
      ensures this in Marked() && Marked() <= Chain()
    {
      {this} + if Propagates() then parent.Marked() else {}
    }

    constructor (parent: Node?, retryable: bool)
      requires parent != null ==> parent.Rooted()
      ensures this.parent == parent && this.retryable == retryable
      ensures !failed && !isolated && !skipped && context == null
      ensures Rooted() && rank == if parent == null then 0 else parent.rank + 1
    {
      this.parent, this.retryable, failed, isolated, skipped, context := parent, retryable, false, false, false, null;
      rank := if parent == null then 0 else parent.rank + 1;
    }

    method Fail(ghost nodes: set<Node>)
      requires Rooted() && Chain() <= nodes && Propagated(nodes)
      modifies Chain()`failed
      ensures forall n <- Chain() :: n.failed == (old(n.failed) || n in old(Marked()))
      ensures Propagated(nodes)
      decreases rank
    {
      if parent != null && !retryable && !isolated {
        parent.Fail(nodes);
      }
      failed := true;
    }
 
    /** The tests above this one that a failure here marks while the test is not isolated. */
    ghost function Above(): set<Node>
      requires Rooted()
      reads (Chain() - {this})`isolated
      ensures Above() <= Chain() - {this}
    {
      if parent == null || retryable then {} else parent.Marked()
    }

    /** The test in the context is a subtest of this one. */
    ghost predicate Valid()
      reads this, context
    {
      context != null ==> context.parent == this && context.rank == rank + 1 && !context.retryable && !context.skipped
    }

    ghost function InContext(): set<Node>
      reads this
    {
      if context == null then {} else {context}
    }

    /** What the test has been marked with so far. */
    function Marks(): Outcome
      reads this, context
    {
      Outcome(failed, false, isolated, skipped,
              if context == null then Own else Below(context.failed, context.isolated), [])
    }

    function Result(): TestResult
      reads this
    {
      ResultOf(failed, skipped)
    }

    /** The result of the test in the context. */
    function Recorded(): TestResult
      reads this, context
    {
      if context == null then Result() else context.Result()
    }

    ghost function FailedTests(): set<Node>
      requires Rooted()
      reads Chain()`failed
    {
      set n <- Chain() | n.failed
    }

    /** The test is left as an outcome says; `failures` and, if it told them, `above` have failed. */
    ghost predicate Becomes(o: Outcome, failures: set<Node>, above: set<Node>)
      requires Rooted()
      reads this, context, Chain()`failed
    {
      && Marks() == o.Marks()
      && forall n <- Chain() | n != this :: n.failed == (n in failures || (o.told && n in above))
    }

    /** Runs the body of this test and returns what was seen; `nodes` are all the tests there are. */
    method Do(body: seq<Act>, ghost nodes: set<Node>) returns (log: seq<Event>, ghost all: set<Node>)
      requires Rooted() && Valid() && Chain() + InContext() <= nodes && Propagated(nodes)
      modifies Chain()`failed, InContext()`failed, this`isolated, this`skipped, this`context
      ensures nodes <= all && fresh(all - nodes) && Propagated(all)
      ensures Valid() && InContext() <= all && fresh(InContext() - old(InContext()))
      ensures log == Perform(old(Marks()), body).log
      ensures Becomes(Perform(old(Marks()), body), old(FailedTests()), old(Above()))
      decreases body, 0
    {
      log, all := [], nodes;
      if body != [] {
        if body[0].StopIfFailed? && (if context == null then failed else context.failed) {
          FailInContext(nodes);
          return;
        }
        log, all := DoAct(body[0], all);
        ghost var o, failures := PerformAct(old(Marks()), body[0]), FailedTests();
        GoesOn(o, body[1..]);
        var more;
        more, all := Do(body[1..], all);
        Then(o, Perform(o.Marks(), body[1..]), old(FailedTests()), failures, old(Above()));
        log := log + more;
      }
    }

    /** Marks the test in the context. */
    method FailInContext(ghost nodes: set<Node>)
      requires Rooted() && Valid() && Chain() + InContext() <= nodes && Propagated(nodes)
      modifies Chain()`failed, InContext()`failed
      ensures Propagated(nodes) && Valid()
      ensures Becomes(old(Marks()).FailsHere(), old(FailedTests()), old(Above()))
    {
      if context == null {
        Fail(nodes);
      } else {
        assert context !in Chain();
        assert context.Marked() == {context} + if context.isolated then {} else Marked();
        context.Fail(nodes);
      }
    }

    method DoAct(act: Act, ghost nodes: set<Node>) returns (log: seq<Event>, ghost all: set<Node>)
      requires Rooted() && Valid() && Chain() + InContext() <= nodes && Propagated(nodes)
      modifies Chain()`failed, InContext()`failed, this`isolated, this`skipped, this`context
      ensures nodes <= all && fresh(all - nodes) && Propagated(all)
      ensures Valid() && InContext() <= all && fresh(InContext() - old(InContext()))
      ensures log == PerformAct(old(Marks()), act).log
      ensures Becomes(PerformAct(old(Marks()), act), old(FailedTests()), old(Above()))
      decreases act
    {
      log, all := [], nodes;
      match act
      case Fail => Fail(nodes);
      case FailHere => FailInContext(nodes);
      case Skip => skipped := true;
      case StopIfFailed =>
      case Isolate => isolated := true;
      case Emit(event) => log := [event];
      case StepBody(index, work) => log, all := DoStep(index, work, nodes);
      case Run(_) => log, all := RunSubtest(act, nodes);
      case Retry(_) => log, all := RunSubtest(act, nodes);
    }

    method RunSubtest(act: Act, ghost nodes: set<Node>) returns (log: seq<Event>, ghost all: set<Node>)
      requires act.Run? || act.Retry?
      requires Rooted() && Valid() && Chain() + InContext() <= nodes && Propagated(nodes)
      modifies Chain()`failed
      ensures nodes <= all && fresh(all - nodes) && Propagated(all)
      ensures log == PerformAct(old(Marks()), act).log
      ensures Becomes(PerformAct(old(Marks()), act), old(FailedTests()), old(Above()))
      decreases act, 0
    {
      if act.Run? {
        var child;
        child, log, all := Subtest(act.body, nodes);
      } else {
        var ok, last;
        ok, last, log, all := RunWithRetry(act.policy, nodes);
      }
    }

    method DoStep(index: nat, work: Work, ghost nodes: set<Node>) returns (log: seq<Event>, ghost all: set<Node>)
      requires Rooted() && Valid() && Chain() + InContext() <= nodes && Propagated(nodes)
      modifies Chain()`failed, this`isolated, this`skipped, this`context
      ensures nodes <= all && fresh(all - nodes) && Propagated(all)
      ensures Valid() && InContext() <= all && fresh(InContext())
      ensures log == PerformWork(old(Marks()), work).InStep(index).log
      ensures Becomes(PerformWork(old(Marks()), work).InStep(index), old(FailedTests()), old(Above()))
      decreases work
    {
      match work {
        case Direct(acts) => log, all := RunDirectly(acts, nodes);
        case Include(scenario, own) => log, all := RunIncluded(scenario, own, nodes);
      }
      log := [BodyRun(index)] + AllWithin(index, log);
    }

    method RunDirectly(acts: seq<Act>, ghost nodes: set<Node>) returns (log: seq<Event>, ghost all: set<Node>)
      requires Rooted() && Chain() <= nodes && Propagated(nodes)
      modifies Chain()`failed, this`isolated, this`skipped, this`context
      ensures nodes <= all && fresh(all - nodes) && Propagated(all)
      ensures context == null && log == PerformWork(old(Marks()), Direct(acts)).log
      ensures Becomes(PerformWork(old(Marks()), Direct(acts)), old(FailedTests()), old(Above()))
      decreases acts, 1
    {
      context := null;
      log, all := Do(acts, nodes);
      context := null;
    }

    /** Runs an included scenario as a subtest. */
    method RunIncluded(scenario: seq<Act>, own: seq<Act>, ghost nodes: set<Node>)
      returns (log: seq<Event>, ghost all: set<Node>)
      requires Rooted() && Chain() <= nodes && Propagated(nodes)
      modifies Chain()`failed, this`isolated, this`skipped, this`context
      ensures nodes <= all && fresh(all - nodes) && Propagated(all)
      ensures Valid() && InContext() <= all && fresh(InContext())
      ensures log == PerformWork(old(Marks()), Work.Include(scenario, own)).log
      ensures Becomes(PerformWork(old(Marks()), Work.Include(scenario, own)), old(FailedTests()), old(Above()))
      decreases Work.Include(scenario, own), 1
    {
      context := null;
      log, all := RunBelow(scenario, own, nodes);
    }

    method RunBelow(scenario: seq<Act>, own: seq<Act>, ghost nodes: set<Node>)
      returns (log: seq<Event>, ghost all: set<Node>)
      requires Rooted() && context == null && Chain() <= nodes && Propagated(nodes)
      modifies Chain()`failed, this`isolated, this`skipped, this`context
      ensures nodes <= all && fresh(all - nodes) && Propagated(all)
      ensures Valid() && InContext() <= all && fresh(InContext())
      ensures log == PerformWork(old(Marks()), Work.Include(scenario, own)).log
      ensures Becomes(PerformWork(old(Marks()), Work.Include(scenario, own)), old(FailedTests()), old(Above()))
      decreases Work.Include(scenario, own), 0
    {
      IncludeInParts(Marks(), scenario, own);
      ghost var seen := Marks().Sees(Perform(FRESH, scenario));
      var child, more;
      child, log, all := SeeSubtest(scenario, nodes);
      more, all := GoOn(child, seen, old(FailedTests()), own, all);
      log := log + more;
    }

    /** Goes on beside an included test that has ended, after which this test is as `seen`. */
    method GoOn(child: Node, ghost seen: Outcome, ghost failures: set<Node>, own: seq<Act>, ghost nodes: set<Node>)
      returns (log: seq<Event>, ghost all: set<Node>)
      requires Rooted() && context == null && Chain() + {child} <= nodes && Propagated(nodes)
      requires child.parent == this && child.rank == rank + 1 && !child.retryable
      requires Becomes(seen, failures, Above())
      modifies Chain()`failed, this`isolated, this`skipped, this`context
      ensures nodes <= all && fresh(all - nodes) && Propagated(all)
      ensures Valid() && InContext() <= {child}
      ensures log == Perform(seen.Marks(), own).log
      ensures Becomes(Perform(seen.Marks(), own).(context := old(child.Marks()).Back()).After(seen),
                      failures, old(Above()))
      decreases own, 2
    {
      ghost var between := FailedTests();
      log, all := RunOwn(child, own, nodes);
      Then(seen, Perform(seen.Marks(), own).(context := old(child.Marks()).Back()), failures, between, old(Above()));
    }

    /** Runs a subtest and is left as one that sees it. */
    method SeeSubtest(body: seq<Act>, ghost nodes: set<Node>)
      returns (child: Node, log: seq<Event>, ghost all: set<Node>)
      requires Rooted() && context == null && Chain() <= nodes && Propagated(nodes)
      modifies Chain()`failed
      ensures nodes <= all && fresh(all - nodes) && Propagated(all)
      ensures fresh(child) && child in all && child.parent == this && child.rank == rank + 1 && !child.retryable
      ensures child.Marks().Back() == Perform(FRESH, body).Back()
      ensures log == old(Marks()).Sees(Perform(FRESH, body)).log
      ensures Becomes(old(Marks()).Sees(Perform(FRESH, body)), old(FailedTests()), old(Above()))
      decreases body, 2
    {
      child, log, all := Subtest(body, nodes);
      assert [] + log == log;
    }

    /** What is done to this test beside an included one, and the context that comes back from there. */
    method RunOwn(child: Node, own: seq<Act>, ghost nodes: set<Node>) returns (log: seq<Event>, ghost all: set<Node>)
      requires Rooted() && context == null && Chain() + {child} <= nodes && Propagated(nodes)
      requires child.parent == this && child.rank == rank + 1 && !child.retryable
      modifies Chain()`failed, this`isolated, this`skipped, this`context
      ensures nodes <= all && fresh(all - nodes) && Propagated(all)
      ensures Valid() && InContext() <= {child}
      ensures log == Perform(old(Marks()), own).log
      ensures Becomes(Perform(old(Marks()), own).(context := old(child.Marks()).Back()),
                      old(FailedTests()), old(Above()))
      decreases own, 1
    {
      log, all := Do(own, nodes);
      context := if child.failed || child.skipped then null else child;
    }

    /** What is left after two parts of a body. */
    lemma Then(before: Outcome, o: Outcome, failures: set<Node>, between: set<Node>, above: set<Node>)
      requires Rooted() && Becomes(o, between, above)
      requires forall n <- Chain() | n != this :: n in between <==> n in failures || (before.told && n in above)
      ensures Becomes(o.After(before), failures, above)
    {
    }

    method Subtest(body: seq<Act>, ghost nodes: set<Node>)
      returns (child: Node, log: seq<Event>, ghost all: set<Node>)
      requires Rooted() && Chain() <= nodes && Propagated(nodes)
      modifies Chain()`failed
      ensures nodes <= all && fresh(all - nodes) && Propagated(all)
      ensures fresh(child) && child in all && child.parent == this && child.rank == rank + 1 && !child.retryable
      ensures child.failed == Perform(FRESH, body).failed && child.isolated == Perform(FRESH, body).isolated
      ensures child.skipped == Perform(FRESH, body).skipped && log == Perform(FRESH, body).log
      ensures forall n <- Chain() ::
        n.failed == (old(n.failed) || (Perform(FRESH, body).told && n in old(Marked())))
      decreases body, 1
    {
      child := new Node(this, false);
      log, all := child.Do(body, nodes + {child});
    }

    /** Runs a subtest under a retry policy: the subtest runs attempts below itself until one does
        not fail or the policy allows no more, and ends like the last one, if there was one. */
    method RunWithRetry(policy: Policy, ghost nodes: set<Node>)
      returns (ok: bool, last: Node?, log: seq<Event>, ghost all: set<Node>)
      requires Rooted() && Chain() <= nodes && Propagated(nodes)
      modifies Chain()`failed
      ensures nodes <= all && fresh(all - nodes) && Propagated(all)
      ensures ok == !PerformPolicy(policy).failed && log == PerformPolicy(policy).log
      ensures last == null <==> policy.Invalid?
      ensures last != null ==> last.Recorded() == LastAttempt(policy.attempts).Recorded()
      ensures forall n <- Chain() ::
        n.failed == (old(n.failed) || (PerformPolicy(policy).told && n in old(Marked())))
      decreases policy, 1
    {
      var test := new Node(this, false);
      last, log, all := test.RunPolicy(policy, nodes + {test});
      ok := !test.failed;
    }

    /** Runs one attempt of this test. Whatever it does, it marks no test that was there before. */
    method RunAttempt(attempt: Attempt, ghost nodes: set<Node>)
      returns (last: Node, log: seq<Event>, ghost all: set<Node>)
      requires Rooted() && Chain() <= nodes && Propagated(nodes)
      modifies Chain()`failed
      ensures nodes <= all && fresh(all - nodes) && Propagated(all)
      ensures forall n <- Chain() :: n.failed == old(n.failed)
      ensures fresh(last) && last.Valid() && last.Marks() == PerformAttempt(attempt).Marks()
      ensures log == PerformAttempt(attempt).log
      decreases attempt
    {
      last := new Node(this, true);
      log, all := last.Do(attempt.body, nodes + {last});
    }

    /** The attempts of a policy, ending with the last one. */
    method RunAttempts(attempts: seq<Attempt>, ghost nodes: set<Node>)
      returns (last: Node, log: seq<Event>, ghost all: set<Node>)
      requires Rooted() && Chain() <= nodes && Propagated(nodes)
      modifies Chain()`failed
      ensures nodes <= all && fresh(all - nodes) && Propagated(all)
      ensures forall n <- Chain() :: n.failed == old(n.failed)
      ensures fresh(last) && last.Valid() && last.Marks() == LastAttempt(attempts).Marks()
      ensures log == LastAttempt(attempts).log
      decreases attempts, 0
    {
      if attempts == [] {
        last := new Node(this, true);
        log, all := [], nodes + {last};
        return;
      }
      last, log, all := RunAttempt(attempts[0], nodes);
      var k := 1;
      ghost var before := [];
      while last.failed && k < |attempts|
        invariant 1 <= k <= |attempts|
        invariant nodes <= all && fresh(all - nodes) && Propagated(all)
        invariant forall n <- Chain() :: n.failed == old(n.failed)
        invariant AfterAttempts(attempts, k, before)
        invariant fresh(last) && last.Valid() && last.Marks() == PerformAttempt(attempts[k - 1]).Marks()
        invariant log == before + PerformAttempt(attempts[k - 1]).log
      {
        before := AnotherAttempt(attempts, k, before);
        var more;
        last, more, all := RunAttempt(attempts[k], all);
        log := log + more;
        k := k + 1;
      }
    }

    /** Ends this test as its last attempt has ended. */
    method EndLike(last: Node, ghost nodes: set<Node>)
      requires Rooted() && Chain() <= nodes && Propagated(nodes) && Marks() == FRESH && last !in Chain()
      modifies Chain()`failed, this`isolated, this`skipped
      ensures Propagated(nodes) && context == old(context)
      ensures failed == last.failed && isolated == last.isolated && skipped == (last.skipped && !last.failed)
      ensures forall n <- Chain() | n != this ::
        n.failed == (old(n.failed) || (last.failed && !last.isolated && n in old(Above())))
    {
      isolated := last.isolated;
      if last.failed {
        Fail(nodes);
      } else if last.skipped {
        skipped := true;
      }
    }

    /** Returns the last attempt, unless the policy is invalid, and what was seen of all of them. */
    method RunPolicy(policy: Policy, ghost nodes: set<Node>)
      returns (last: Node?, log: seq<Event>, ghost all: set<Node>)
      requires Rooted() && Chain() <= nodes && Propagated(nodes) && Marks() == FRESH
      modifies Chain()`failed, this`isolated, this`skipped
      ensures nodes <= all && fresh(all - nodes) && Propagated(all) && Valid()
      ensures last == null <==> policy.Invalid?
      ensures last != null ==> fresh(last) && last.Recorded() == LastAttempt(policy.attempts).Recorded()
      ensures log == PerformPolicy(policy).log
      ensures Becomes(PerformPolicy(policy), old(FailedTests()), old(Above()))
      decreases policy, 0
    {
      last, log, all := null, [], nodes;
      if policy.Invalid? {
        Fail(all);
        return;
      }
      last, log, all := RunAttempts(policy.attempts, all);
      EndLike(last, all);
    }
  }

  /** A test that goes on after some of its body does what it would do from its marks alone. */
  lemma {:induction false} GoesOn(o: Outcome, body: seq<Act>)
    ensures Perform(o, body) == Perform(o.Marks(), body).After(o)
    decreases |body|, 0
  {
    if body != [] && !Stops(o, body[0]) {
      ActGoesOn(o, body[0]);
      GoesOnLater(o, PerformAct(o.Marks(), body[0]), body[1..]);
    }
  }

  lemma {:induction false} GoesOnLater(o: Outcome, o': Outcome, body: seq<Act>)
    ensures Perform(o'.After(o), body) == Perform(o', body).After(o)
    decreases |body|
  {
    GoesOn(o', body);
    GoesOn(o'.After(o), body);
    var end := Perform(o'.Marks(), body);
    assert o'.After(o).Marks() == o'.Marks();
    assert o.log + (o'.log + end.log) == o.log + o'.log + end.log;
  }

  /** The attempts before the k-th one have failed, and `before` was seen of them. */
  ghost predicate AfterAttempts(attempts: seq<Attempt>, k: nat, before: seq<Event>)
    requires 1 <= k <= |attempts|
  {
    var last := LastAttempt(attempts[k - 1..]);
    LastAttempt(attempts) == last.(log := before + last.log)
  }

  lemma AttemptsFrom(attempts: seq<Attempt>, k: nat)
    requires k < |attempts|
    ensures LastAttempt(attempts[k..]) ==
      var o, last := PerformAttempt(attempts[k]), LastAttempt(attempts[k + 1..]);
      if !o.failed || k + 1 == |attempts| then o else last.(log := o.log + last.log)
  {
    assert attempts[k..][1..] == attempts[k + 1..];
  }

  lemma AnotherAttempt(attempts: seq<Attempt>, k: nat, before: seq<Event>) returns (before': seq<Event>)
    requires 1 <= k < |attempts| && AfterAttempts(attempts, k, before) && PerformAttempt(attempts[k - 1]).failed
    ensures before' == before + PerformAttempt(attempts[k - 1]).log && AfterAttempts(attempts, k + 1, before')
  {
    before' := before + PerformAttempt(attempts[k - 1]).log;
    AttemptsFrom(attempts, k - 1);
    var last := LastAttempt(attempts[k..]);
    assert before + (PerformAttempt(attempts[k - 1]).log + last.log) == before' + last.log;
  }

  lemma IncludeInParts(o: Outcome, scenario: seq<Act>, own: seq<Act>)
    requires o.context == Own
    ensures var inner := Perform(FRESH, scenario);
      var seen := o.Sees(inner);
      PerformWork(o, Work.Include(scenario, own)) == Perform(seen.Marks(), own).(context := inner.Back()).After(seen)
  {
    GoesOn(o.Sees(Perform(FRESH, scenario)), own);
  }

  lemma SeesGoesOn(o: Outcome, seen: Outcome)
    ensures o.Sees(seen) == o.Marks().Sees(seen).After(o)
  {
    assert [] + seen.log == seen.log;
  }

  lemma ActGoesOn(o: Outcome, act: Act)
    ensures PerformAct(o, act) == PerformAct(o.Marks(), act).After(o)
  {
    match act
    case StepBody(index, work) =>
      var own := PerformWork(o.Marks(), work).InStep(index);
      assert [] + own.log == own.log;
    case Run(body) => SeesGoesOn(o, Perform(FRESH, body));
    case Retry(policy) => SeesGoesOn(o, PerformPolicy(policy));
    case _ =>
  }

  /** A retried test fails exactly when every attempt its policy allows would fail. */
  lemma {:induction false} FailsWhenAllFail(attempts: seq<Attempt>)
    requires attempts != []
    ensures LastAttempt(attempts).failed <==> forall a <- attempts :: PerformAttempt(a).failed
  {
    if PerformAttempt(attempts[0]).failed && |attempts| > 1 {
      FailsWhenAllFail(attempts[1..]);
      assert forall a <- attempts :: a == attempts[0] || a in attempts[1..];
      assert forall a <- attempts[1..] :: a in attempts;
    } else {
      assert attempts[0] in attempts;
      assert |attempts| == 1 ==> forall a <- attempts :: a == attempts[0];
    }
  }

  /** What is seen of the first `n` attempts. */
  function SeenOf(attempts: seq<Attempt>, n: nat): seq<Event>
    requires n <= |attempts|
  {
    if n == 0 then [] else SeenOf(attempts, n - 1) + PerformAttempt(attempts[n - 1]).log
  }

  /** The attempt with index `k` ends the test: all before have failed, and it has not, or is the last one. */
  predicate EndsWith(attempts: seq<Attempt>, k: nat) {
    && k < |attempts| && (forall i | 0 <= i < k :: PerformAttempt(attempts[i]).failed)
    && (!PerformAttempt(attempts[k]).failed || k == |attempts| - 1)
  }

  /** A retried test ends like the attempt that ends it: it fails, keeps its failures to itself, and
      is skipped, provided that it has not failed, as that attempt; its parent learns of a failure that
      is not kept; and all attempts up to it were seen. An invalid policy is a failure. */
  lemma EndsLikeLastAttempt(attempts: seq<Attempt>, k: nat)
    requires EndsWith(attempts, k)
    ensures var o, last := PerformPolicy(Attempts(attempts)), PerformAttempt(attempts[k]);
      && o.failed == last.failed && o.isolated == last.isolated && o.told == (last.failed && !last.isolated)
      && o.skipped == (last.skipped && !last.failed) && o.log == SeenOf(attempts, k + 1)
      && LastAttempt(attempts).Recorded() == last.Recorded()
    ensures var o := PerformPolicy(Policy.Invalid); o.failed && o.told && !o.skipped && o.log == []
  {
    LastAttemptIs(attempts, 0, k);
    assert attempts[0..] == attempts;
    assert [] + LastAttempt(attempts).log == LastAttempt(attempts).log;
  }

  lemma {:induction false} LastAttemptIs(attempts: seq<Attempt>, j: nat, k: nat)
    requires EndsWith(attempts, k) && j <= k
    ensures var o, last := LastAttempt(attempts[j..]), PerformAttempt(attempts[k]);
      o.(log := []) == last.(log := []) && SeenOf(attempts, j) + o.log == SeenOf(attempts, k + 1)
    decreases k - j
  {
    AttemptsFrom(attempts, j);
    if j < k {
      LastAttemptIs(attempts, j + 1, k);
      var more := LastAttempt(attempts[j + 1..]).log;
      assert SeenOf(attempts, j) + (PerformAttempt(attempts[j]).log + more) == SeenOf(attempts, j + 1) + more;
    }
  }

  // A body that only concerns its own test and its subtests.

  predicate Plain(body: seq<Act>) {
    forall act <- body :: act.Fail? || act.Skip? || act.Isolate? || act.Emit? || act.Run? || act.Retry?
  }

  /** The act makes its test fail: by itself, or by a subtest that tells of its failure. */
  predicate ActFails(act: Act) {
    match act
    case Fail => true
    case Run(body) => Perform(FRESH, body).told
    case Retry(policy) => PerformPolicy(policy).told
    case _ => false
  }

  function ActLog(act: Act): seq<Event> {
    match act
    case Emit(event) => [event]
    case Run(body) => Perform(FRESH, body).log
    case Retry(policy) => PerformPolicy(policy).log
    case _ => []
  }

  function BodyLog(body: seq<Act>): seq<Event> {
    if body == [] then [] else ActLog(body[0]) + BodyLog(body[1..])
  }

  /** Something makes the test fail before it starts to keep its failures to itself. */
  predicate TellsIn(body: seq<Act>) {
    exists i | 0 <= i < |body| :: ActFails(body[i]) && Isolate !in body[..i]
  }

  lemma TellsInNext(body: seq<Act>)
    requires body != []
    ensures TellsIn(body) <==> ActFails(body[0]) || (!body[0].Isolate? && TellsIn(body[1..]))
  {
    if ActFails(body[0]) {
      assert Isolate !in body[..0];
    }
    if !body[0].Isolate? && TellsIn(body[1..]) {
      var i :| 0 <= i < |body| - 1 && ActFails(body[1..][i]) && Isolate !in body[1..][..i];
      assert body[..i + 1] == [body[0]] + body[1..][..i] && ActFails(body[i + 1]);
    }
    if i :| 0 <= i < |body| && ActFails(body[i]) && Isolate !in body[..i] {
      if i > 0 {
        assert body[..i] == [body[0]] + body[1..][..i - 1] && body[1..][i - 1] == body[i];
      }
    }
  }

  /** A test fails if and only if something in its body makes it fail, and its parent learns of it if
      and only if that is so before the test starts to keep its failures to itself. */
  lemma {:induction false} FailsWhenAnActFails(body: seq<Act>)
    requires Plain(body)
    ensures var o := Perform(FRESH, body);
      && (o.failed <==> exists act <- body :: ActFails(act)) && (o.told <==> TellsIn(body))
      && (o.isolated <==> Isolate in body) && (o.skipped <==> Skip in body)
      && o.context.Own? && o.log == BodyLog(body)
  {
    PerformsPlain(FRESH, body);
    assert [] + BodyLog(body) == BodyLog(body);
  }

  lemma PerformsAct(o: Outcome, act: Act)
    requires Plain([act]) && o.context.Own?
    ensures var o' := PerformAct(o, act);
      && (o'.failed <==> o.failed || ActFails(act)) && (o'.told <==> o.told || (!o.isolated && ActFails(act)))
      && (o'.isolated <==> o.isolated || act.Isolate?) && (o'.skipped <==> o.skipped || act.Skip?)
      && o'.context.Own? && o'.log == o.log + ActLog(act)
  {
    assert act in [act];
  }

  lemma {:induction false} PerformsPlain(o: Outcome, body: seq<Act>)
    requires Plain(body) && o.context.Own?
    ensures var o' := Perform(o, body);
      && (o'.failed <==> o.failed || exists act <- body :: ActFails(act))
      && (o'.told <==> o.told || (!o.isolated && TellsIn(body)))
      && (o'.isolated <==> o.isolated || Isolate in body) && (o'.skipped <==> o.skipped || Skip in body)
      && o'.context.Own? && o'.log == o.log + BodyLog(body)
    decreases |body|
  {
    if body != [] {
      assert body == [body[0]] + body[1..];
      PerformsAct(o, body[0]);
      PerformsPlain(PerformAct(o, body[0]), body[1..]);
      TellsInNext(body);
      PlainParts(body);
      assert o.log + ActLog(body[0]) + BodyLog(body[1..]) == o.log + BodyLog(body);
    }
  }

  lemma PlainParts(body: seq<Act>)
    requires body != []
    ensures (exists act <- body :: ActFails(act)) <==> ActFails(body[0]) || exists act <- body[1..] :: ActFails(act)
    ensures Isolate in body <==> body[0].Isolate? || Isolate in body[1..]
    ensures Skip in body <==> body[0].Skip? || Skip in body[1..]
  {
    assert body == [body[0]] + body[1..];
  }

  /** A step body fails if and only if something in it makes its test fail, an included scenario among
      it; and it goes on with the included test exactly when that has neither failed nor been skipped. */
  lemma WorkMeans(scenario: seq<Act>, own: seq<Act>)
    requires Plain(own)
    ensures var o, inner := PerformWork(FRESH, Include(scenario, own)), Perform(FRESH, scenario);
      && (o.failed <==> inner.told || exists act <- own :: ActFails(act))
      && o.log == inner.log + BodyLog(own)
      && o.context == if inner.failed || inner.skipped then Own else Below(false, inner.isolated)
    ensures var o := PerformWork(FRESH, Direct(own));
      (o.failed <==> exists act <- own :: ActFails(act)) && o.log == BodyLog(own) && o.context.Own?
  {
    var seen := FRESH.Sees(Perform(FRESH, scenario));
    PerformsPlain(seen, own);
    FailsWhenAnActFails(own);
    assert [] + Perform(FRESH, scenario).log == Perform(FRESH, scenario).log;
  }
}
