/** The steps of a scenario: what runs, what is bound and what fails the scenario. */
module Scenario {
  import opened Failure
  import opened Options

  datatype Condition = Invalid | Holds | DoesNotHold

  datatype Binding = Nothing | Unbound | Bound(value: string) // Unbound: its template cannot be executed

  /** How one attempt of a step turns out where it depends on the outside. */
  datatype Try = Try(resets: bool, condition: Condition, body: Work, vars: Binding, secrets: Binding)

  datatype Step = Step(id: string, continueOnError: bool, validPolicy: bool, first: Try, more: seq<Try>) {
    function Tries(): seq<Try> {
      [first] + more
    }
  }

  /** Binding a value is seen; a template that cannot be executed fails the test in the context. */
  function Bind(binding: Binding, event: string -> Event): seq<Act> {
    match binding
    case Nothing => []
    case Unbound => [FailHere, StopIfFailed]
    case Bound(value) => [Emit(event(value))]
  }

  function BindVars(t: Try, index: nat): seq<Act> {
    Bind(t.vars, value => VarsBound(index, value))
  }

  function BindSecrets(t: Try, index: nat): seq<Act> {
    Bind(t.secrets, value => SecretsBound(index, value))
  }

  /** An attempt of the step with this index; `skip` says that a step before it has failed. Failures
      stay with a step that may fail from the point on where the step itself begins. After its body
      the attempt ends if the test in the context has failed. */
  function Body(step: Step, index: nat, t: Try, attempt: nat, skip: bool): seq<Act> {
    if attempt > 0 && !t.resets then [Fail]
    else if skip then [Skip]
    else if t.condition.Invalid? then [Fail]
    else if t.condition.DoesNotHold? then [Skip]
    else
      (if step.continueOnError then [Isolate] else [])
      + ([StepBody(index, t.body)] + ([StopIfFailed] + (BindVars(t, index) + BindSecrets(t, index))))
  }

  function PolicyOf(step: Step, index: nat, skip: bool): Policy {
    if !step.validPolicy then Policy.Invalid
    else Attempts(AttemptsOf(step, index, skip))
  }

  function AttemptsOf(step: Step, index: nat, skip: bool): (attempts: seq<Attempt>)
    ensures |attempts| == |step.Tries()|
  {
    var tries := step.Tries();
    seq(|tries|, k requires 0 <= k < |tries| => Attempt(Body(step, index, tries[k], k, skip)))
  }

  /** Steps from this one on are skipped. */
  predicate Blocked(steps: seq<Step>, i: nat)
    requires i <= |steps|
    decreases i, 0
  {
    i > 0 && (Blocked(steps, i - 1) || (OutcomeOf(steps, i - 1).failed && !steps[i - 1].continueOnError))
  }

  function OutcomeOf(steps: seq<Step>, i: nat): Outcome
    requires i < |steps|
    decreases i, 1
  {
    PerformPolicy(PolicyOf(steps[i], i, Blocked(steps, i)))
  }

  /** The result that is recorded for a step: that of the test in the context of its last attempt. */
  function Recorded(steps: seq<Step>, i: nat): TestResult
    requires i < |steps|
  {
    LastAttempt(AttemptsOf(steps[i], i, Blocked(steps, i))).Recorded()
  }

  /** What is seen of the first n steps. */
  function Log(steps: seq<Step>, n: nat): seq<Event>
    requires n <= |steps|
  {
    if n == 0 then [] else Log(steps, n - 1) + OutcomeOf(steps, n - 1).log
  }

  function Results(steps: seq<Step>, n: nat): map<string, TestResult>
    requires n <= |steps|
  {
    if n == 0 then map[]
    else
      var step := steps[n - 1];
      var results := Results(steps, n - 1);
      if step.id == "" || !step.validPolicy then results
      else results[step.id := Recorded(steps, n - 1)]
  }

  /** Some step told the scenario that it failed. */
  predicate Told(steps: seq<Step>, n: nat)
    requires n <= |steps|
  {
    exists i | 0 <= i < n :: OutcomeOf(steps, i).told
  }

  lemma ToldNext(steps: seq<Step>, n: nat)
    requires n < |steps|
    ensures Told(steps, n + 1) <==> Told(steps, n) || OutcomeOf(steps, n).told
  {
    if Told(steps, n + 1) && !OutcomeOf(steps, n).told {
      var i :| 0 <= i < n + 1 && OutcomeOf(steps, i).told;
      assert i < n;
    }
  }

  /** What the loop has seen: whether a step failed without leave to, what happened, and how steps ended. */
  datatype Progress = Progress(failed: bool, log: seq<Event>, results: map<string, TestResult>)

  function ProgressAt(steps: seq<Step>, n: nat): Progress
    requires n <= |steps|
  {
    Progress(Blocked(steps, n), Log(steps, n), Results(steps, n))
  }

  /** One round of the step loop. */
  method RunStep(test: Node, steps: seq<Step>, idx: nat, p: Progress, ghost told: bool, ghost nodes: set<Node>)
    returns (p': Progress, ghost told': bool, ghost all: set<Node>)
    requires test.Rooted() && test.Chain() <= nodes && Propagated(nodes)
    requires idx < |steps| && p == ProgressAt(steps, idx) && told == Told(steps, idx)
    modifies test.Chain()`failed
    ensures nodes <= all && fresh(all - nodes) && Propagated(all)
    ensures p' == ProgressAt(steps, idx + 1) && told' == Told(steps, idx + 1)
    ensures told' == (told || OutcomeOf(steps, idx).told)
    ensures forall n <- test.Chain() ::
      n.failed == (old(n.failed) || (OutcomeOf(steps, idx).told && n in old(test.Marked())))
  {
    ToldNext(steps, idx);
    told' := told || OutcomeOf(steps, idx).told;
    var step, failed, results := steps[idx], p.failed, p.results;
    var ok, last, log;
    ok, last, log, all := test.RunWithRetry(PolicyOf(step, idx, p.failed), nodes);
    if !ok && !step.continueOnError {
      failed := true;
    }
    if last != null && step.id != "" {
      results := results[step.id := last.Recorded()];
    }
    p' := Progress(failed, p.log + log, results);
  }

  method RunScenario(test: Node, steps: seq<Step>, ghost nodes: set<Node>)
    returns (p: Progress, ghost all: set<Node>)
    requires test.Rooted() && test.Chain() <= nodes && Propagated(nodes)
    modifies test.Chain()`failed
    ensures nodes <= all && fresh(all - nodes) && Propagated(all)
    ensures p == ProgressAt(steps, |steps|)
    ensures forall n <- test.Chain() ::
      n.failed == (old(n.failed) || (Told(steps, |steps|) && n in old(test.Marked())))
  {
    p, all := Progress(false, [], map[]), nodes;
    ghost var told := false;
    for idx := 0 to |steps|
      invariant nodes <= all && fresh(all - nodes) && Propagated(all)
      invariant p == ProgressAt(steps, idx) && told == Told(steps, idx)
      invariant forall n <- test.Chain() :: n.failed == (old(n.failed) || (told && n in old(test.Marked())))
    {
      p, told, all := RunStep(test, steps, idx, p, told, all);
    }
  }

  // What an attempt, a step and a scenario come to, in terms of the document and of the world outside.

  /** The body of an attempt runs. */
  predicate RunsBody(t: Try, attempt: nat) {
    (attempt > 0 ==> t.resets) && t.condition.Holds?
  }

  /** What the body of an attempt comes to by itself. */
  function Alone(t: Try): Outcome {
    PerformWork(FRESH, t.body)
  }

  /** A value cannot be bound, and the attempt learns of it: the test in the context tells it. */
  predicate BindFails(t: Try) {
    (t.vars.Unbound? || t.secrets.Unbound?) && (Alone(t).context.Own? || !Alone(t).context.isolated)
  }

  /** The result of the test that is in the context after an attempt whose body ran. */
  function RecordedFor(t: Try): TestResult {
    if t.vars.Unbound? || t.secrets.Unbound? then Failed else Alone(t).Recorded()
  }

  predicate AttemptFails(t: Try, attempt: nat) {
    || (attempt > 0 && !t.resets)
    || t.condition.Invalid?
    || (t.condition.Holds? && (Alone(t).failed || BindFails(t)))
  }

  /** What is bound after a body that left no failed test in the context. */
  function Bindings(t: Try, index: nat): seq<Event> {
    (if t.vars.Bound? then [VarsBound(index, t.vars.value)] else [])
    + (if t.secrets.Bound? && !t.vars.Unbound? then [SecretsBound(index, t.secrets.value)] else [])
  }

  /** What is seen of an attempt that is not skipped. */
  function AttemptLog(t: Try, index: nat, attempt: nat): seq<Event> {
    if !RunsBody(t, attempt) then []
    else
      [BodyRun(index)] + AllWithin(index, Alone(t).log) + if Alone(t).FailedHere() then [] else Bindings(t, index)
  }

  /** What can be seen of a test from outside, its isolation aside. */
  function Visible(o: Outcome): Outcome {
    o.(told := false, isolated := false)
  }

  lemma {:induction false} IsolationIsHidden(o: Outcome, o': Outcome, body: seq<Act>)
    requires Visible(o) == Visible(o')
    ensures Visible(Perform(o, body)) == Visible(Perform(o', body))
    decreases body
  {
    if body != [] && !Stops(o, body[0]) {
      IsolationIsHiddenBy(o, o', body[0]);
      IsolationIsHidden(PerformAct(o, body[0]), PerformAct(o', body[0]), body[1..]);
    }
  }

  lemma {:induction false} IsolationIsHiddenBy(o: Outcome, o': Outcome, act: Act)
    requires Visible(o) == Visible(o')
    ensures Visible(PerformAct(o, act)) == Visible(PerformAct(o', act))
    decreases act
  {
    match act
    case StepBody(index, work) => IsolationIsHiddenIn(o.Marks(), o'.Marks(), work);
    case Run(body) => IsolationIsHiddenFrom(o, o', Perform(FRESH, body));
    case Retry(policy) => IsolationIsHiddenFrom(o, o', PerformPolicy(policy));
    case _ =>
  }

  lemma IsolationIsHiddenFrom(o: Outcome, o': Outcome, seen: Outcome)
    requires Visible(o) == Visible(o')
    ensures Visible(o.Sees(seen)) == Visible(o'.Sees(seen))
  {
  }

  lemma {:induction false} IsolationIsHiddenIn(o: Outcome, o': Outcome, work: Work)
    requires Visible(o) == Visible(o')
    ensures Visible(PerformWork(o, work)) == Visible(PerformWork(o', work))
    decreases work
  {
    match work
    case Direct(acts) => IsolationIsHidden(o.(context := Own), o'.(context := Own), acts);
    case Include(scenario, own) =>
      var inner := Perform(FRESH, scenario);
      IsolationIsHidden(o.(context := Own).Sees(inner), o'.(context := Own).Sees(inner), own);
  }

  lemma PerformFirst(o: Outcome, act: Act, rest: seq<Act>)
    ensures Perform(o, [act] + rest) == if Stops(o, act) then o.FailsHere() else Perform(PerformAct(o, act), rest)
  {
    assert ([act] + rest)[1..] == rest;
  }

  lemma BindMeans(o: Outcome, binding: Binding, event: string -> Event, rest: seq<Act>)
    requires !o.FailedHere()
    ensures Perform(o, Bind(binding, event) + rest) ==
      match binding
      case Nothing => Perform(o, rest)
      case Unbound => o.FailsHere().FailsHere()
      case Bound(value) => Perform(o.(log := o.log + [event(value)]), rest)
  {
    match binding
    case Nothing => assert [] + rest == rest;
    case Unbound =>
      assert Bind(binding, event) + rest == [FailHere] + ([StopIfFailed] + rest);
      PerformFirst(o, FailHere, [StopIfFailed] + rest);
      PerformFirst(o.FailsHere(), StopIfFailed, rest);
    case Bound(value) => PerformFirst(o, Emit(event(value)), rest);
  }

  lemma BindsMean(o: Outcome, t: Try, index: nat)
    requires !o.FailedHere()
    ensures var o' := Perform(o, BindVars(t, index) + BindSecrets(t, index));
      && o'.failed == (o.failed || ((t.vars.Unbound? || t.secrets.Unbound?) && (o.context.Own? || !o.context.isolated)))
      && o'.Recorded() == (if t.vars.Unbound? || t.secrets.Unbound? then Failed else o.Recorded())
      && o'.log == o.log + Bindings(t, index)
  {
    BindMeans(o, t.vars, value => VarsBound(index, value), BindSecrets(t, index));
    if !t.vars.Unbound? {
      SecretsMean(if t.vars.Bound? then o.(log := o.log + [VarsBound(index, t.vars.value)]) else o, t, index);
    }
  }

  lemma SecretsMean(o: Outcome, t: Try, index: nat)
    requires !o.FailedHere()
    ensures Perform(o, BindSecrets(t, index)) ==
      match t.secrets
      case Nothing => o
      case Unbound => o.FailsHere().FailsHere()
      case Bound(value) => o.(log := o.log + [SecretsBound(index, value)])
  {
    assert BindSecrets(t, index) + [] == BindSecrets(t, index);
    BindMeans(o, t.secrets, value => SecretsBound(index, value), []);
  }

  function Rest(t: Try, index: nat): seq<Act> {
    [StepBody(index, t.body)] + ([StopIfFailed] + (BindVars(t, index) + BindSecrets(t, index)))
  }

  lemma BodyMeans(o: Outcome, t: Try, index: nat)
    requires Visible(o) == FRESH
    ensures var o', alone := PerformAct(o, StepBody(index, t.body)), Alone(t);
      && o'.failed == alone.failed && o'.skipped == alone.skipped && o'.context == alone.context
      && o'.log == [BodyRun(index)] + AllWithin(index, alone.log)
  {
    IsolationIsHiddenIn(o.Marks(), FRESH, t.body);
    var own := [BodyRun(index)] + AllWithin(index, Alone(t).log);
    assert [] + own == own;
  }

  /** The part of an attempt that begins with the body of the step. */
  lemma StepMeans(o: Outcome, t: Try, index: nat)
    requires Visible(o) == FRESH
    ensures var end := Perform(o, Rest(t, index));
      && end.failed == (Alone(t).failed || BindFails(t))
      && end.Recorded() == RecordedFor(t)
      && end.log == [BodyRun(index)] + AllWithin(index, Alone(t).log)
                    + if Alone(t).FailedHere() then [] else Bindings(t, index)
  {
    var binds := BindVars(t, index) + BindSecrets(t, index);
    BodyMeans(o, t, index);
    PerformFirst(o, StepBody(index, t.body), [StopIfFailed] + binds);
    var o' := PerformAct(o, StepBody(index, t.body));
    PerformFirst(o', StopIfFailed, binds);
    FailedHereHasFailed(t);
    if !o'.FailedHere() {
      BindsMean(o', t, index);
    }
  }

  /** A body only comes back with a test that has not failed, or with its own. */
  lemma FailedHereHasFailed(t: Try)
    ensures Alone(t).FailedHere() ==> Alone(t).context.Own? && Alone(t).failed
  {
  }

  /** An attempt fails, is recorded and is seen as its parts say; a skipped one is not seen. */
  lemma AttemptMeans(step: Step, index: nat, t: Try, attempt: nat, skip: bool)
    ensures var o := Perform(FRESH, Body(step, index, t, attempt, skip));
      && o.failed == (if skip then attempt > 0 && !t.resets else AttemptFails(t, attempt))
      && o.log == (if skip then [] else AttemptLog(t, index, attempt))
      && (!skip ==> o.Recorded() == RecordedOfAttempt(t, attempt))
  {
    if !skip && RunsBody(t, attempt) {
      if step.continueOnError {
        PerformFirst(FRESH, Isolate, Rest(t, index));
        StepMeans(PerformAct(FRESH, Isolate), t, index);
      } else {
        assert [] + Rest(t, index) == Rest(t, index);
        StepMeans(FRESH, t, index);
      }
    }
  }

  /** A body that leaves it to the step loop to keep failures from the scenario. */
  predicate KeepsNothing(body: seq<Act>)
    decreases body
  {
    forall i | 0 <= i < |body| :: ActKeepsNothing(body[i])
  }

  predicate ActKeepsNothing(act: Act)
    decreases act
  {
    !act.Isolate? && (act.StepBody? ==> WorkKeepsNothing(act.work))
  }

  predicate WorkKeepsNothing(work: Work)
    decreases work
  {
    match work
    case Direct(acts) => KeepsNothing(acts)
    case Include(_, own) => KeepsNothing(own)
  }

  lemma {:induction false} IsolationStays(o: Outcome, body: seq<Act>)
    requires KeepsNothing(body)
    ensures Perform(o, body).isolated == o.isolated
    decreases body
  {
    if body != [] && !Stops(o, body[0]) {
      IsolationStaysBy(o, body[0]);
      IsolationStays(PerformAct(o, body[0]), body[1..]);
    }
  }

  lemma {:induction false} IsolationStaysBy(o: Outcome, act: Act)
    requires ActKeepsNothing(act)
    ensures PerformAct(o, act).isolated == o.isolated
    decreases act
  {
    if act.StepBody? {
      IsolationStaysIn(o.Marks(), act.work);
    }
  }

  lemma {:induction false} IsolationStaysIn(o: Outcome, work: Work)
    requires WorkKeepsNothing(work)
    ensures PerformWork(o, work).isolated == o.isolated
    decreases work
  {
    match work
    case Direct(acts) => IsolationStays(o.(context := Own), acts);
    case Include(scenario, own) => IsolationStays(o.(context := Own).Sees(Perform(FRESH, scenario)), own);
  }

  lemma BindsKeepNothing(t: Try, index: nat)
    requires WorkKeepsNothing(t.body)
    ensures KeepsNothing(Rest(t, index))
  {
    BindKeepsNothing(t.vars, value => VarsBound(index, value));
    BindKeepsNothing(t.secrets, value => SecretsBound(index, value));
  }

  lemma BindKeepsNothing(binding: Binding, event: string -> Event)
    ensures KeepsNothing(Bind(binding, event))
  {
    match binding
    case Nothing =>
    case Unbound => assert ActKeepsNothing(FailHere) && ActKeepsNothing(StopIfFailed);
    case Bound(value) => assert ActKeepsNothing(Emit(event(value)));
  }

  /** A failure of an attempt concerns the scenario unless the step may fail and the attempt got as
      far as its body. */
  lemma AttemptTells(step: Step, index: nat, t: Try, attempt: nat, skip: bool)
    requires WorkKeepsNothing(t.body)
    ensures Perform(FRESH, Body(step, index, t, attempt, skip)).isolated <==>
      step.continueOnError && !skip && RunsBody(t, attempt)
  {
    if !skip && RunsBody(t, attempt) {
      BindsKeepNothing(t, index);
      if step.continueOnError {
        PerformFirst(FRESH, Isolate, Rest(t, index));
        IsolationStays(PerformAct(FRESH, Isolate), Rest(t, index));
      } else {
        assert [] + Rest(t, index) == Rest(t, index);
        IsolationStays(FRESH, Rest(t, index));
      }
    }
  }

  // The attempts of a step.

  /** The index of the attempt that ends a step. */
  function LastTry(step: Step, k: nat): (last: nat)
    requires k < |step.Tries()|
    ensures k <= last < |step.Tries()|
    decreases |step.Tries()| - k
  {
    if AttemptFails(step.Tries()[k], k) && k + 1 < |step.Tries()| then LastTry(step, k + 1) else k
  }

  /** The attempt with index k is made: all before it have failed. */
  predicate Made(step: Step, k: nat)
    requires k < |step.Tries()|
  {
    forall i | 0 <= i < k :: AttemptFails(step.Tries()[i], i)
  }

  /** What is seen of the attempts of a step that is not skipped, from the k-th on. */
  function LogFrom(step: Step, index: nat, k: nat): seq<Event>
    requires k < |step.Tries()|
    decreases |step.Tries()| - k
  {
    AttemptLog(step.Tries()[k], index, k)
    + if AttemptFails(step.Tries()[k], k) && k + 1 < |step.Tries()| then LogFrom(step, index, k + 1) else []
  }

  predicate AllFailFrom(step: Step, k: nat) {
    forall i | k <= i < |step.Tries()| :: AttemptFails(step.Tries()[i], i)
  }

  lemma AllFailNext(step: Step, k: nat)
    requires k < |step.Tries()|
    ensures AllFailFrom(step, k) <==> AttemptFails(step.Tries()[k], k) && AllFailFrom(step, k + 1)
  {
  }

  lemma AttemptAt(step: Step, index: nat, k: nat)
    requires k < |step.Tries()|
    ensures var o := PerformAttempt(AttemptsOf(step, index, false)[k]);
      && o.failed == AttemptFails(step.Tries()[k], k) && o.log == AttemptLog(step.Tries()[k], index, k)
      && o.Recorded() == RecordedOfAttempt(step.Tries()[k], k)
  {
    AttemptMeans(step, index, step.Tries()[k], k, false);
  }

  lemma {:induction false} AttemptsMean(step: Step, index: nat, k: nat)
    requires k < |step.Tries()|
    ensures var o := LastAttempt(AttemptsOf(step, index, false)[k..]);
      && o.log == LogFrom(step, index, k)
      && (o.failed <==> AllFailFrom(step, k))
      && o.Recorded() == RecordedOfAttempt(step.Tries()[LastTry(step, k)], LastTry(step, k))
    decreases |step.Tries()| - k
  {
    AttemptAt(step, index, k);
    AllFailNext(step, k);
    AttemptsFrom(AttemptsOf(step, index, false), k);
    if k + 1 < |step.Tries()| {
      AttemptsMean(step, index, k + 1);
    }
  }

  /** A skipped step makes one attempt, which skips. */
  lemma SkippedStep(step: Step, index: nat)
    requires step.validPolicy
    ensures var o := PerformPolicy(PolicyOf(step, index, true));
      !o.failed && o.skipped && o.log == []
    ensures LastAttempt(AttemptsOf(step, index, true)).Recorded() == Skipped
  {
    var attempts := AttemptsOf(step, index, true);
    assert attempts[0].body == [Skip] + [];
    PerformFirst(FRESH, Skip, []);
    assert PerformAttempt(attempts[0]) == FRESH.(skipped := true);
    assert LastAttempt(attempts) == FRESH.(skipped := true);
  }

  /** The result that is recorded for a step that is not skipped: that of its last attempt. */
  function RecordedOfStep(step: Step): TestResult {
    var last := LastTry(step, 0);
    RecordedOfAttempt(step.Tries()[last], last)
  }

  function RecordedOfAttempt(t: Try, attempt: nat): TestResult {
    if (attempt > 0 && !t.resets) || t.condition.Invalid? then Failed
    else if t.condition.DoesNotHold? then Skipped
    else RecordedFor(t)
  }

  /** A step fails, is recorded and is seen as its attempts say, which are made one after the other until one
      does not fail; one that is skipped is not seen, and fails only for its retry policy. */
  lemma StepOutcome(steps: seq<Step>, i: nat)
    requires i < |steps|
    ensures var step, skip, o := steps[i], Blocked(steps, i), OutcomeOf(steps, i);
      && o.log == (if skip || !step.validPolicy then [] else LogFrom(step, i, 0))
      && (o.failed <==> !step.validPolicy || (!skip && AllFailFrom(step, 0)))
      && (step.validPolicy ==> Recorded(steps, i) == if skip then Skipped else RecordedOfStep(step))
  {
    var step, skip := steps[i], Blocked(steps, i);
    if step.validPolicy {
      if skip {
        SkippedStep(step, i);
      } else {
        AttemptsMean(step, i, 0);
        assert AttemptsOf(step, i, false)[0..] == AttemptsOf(step, i, false);
      }
    }
  }

  /** The result of the step is recorded under this id. */
  predicate RecordsAs(step: Step, id: string) {
    step.id == id && step.validPolicy
  }

  /** The last one of the first `n` steps whose result is recorded under this id. */
  function LastRecorded(steps: seq<Step>, n: nat, id: string): (k: Option<nat>)
    requires n <= |steps|
    ensures k.Some? ==>
      k.value < n && RecordsAs(steps[k.value], id) && forall j | k.value < j < n :: !RecordsAs(steps[j], id)
    ensures k.None? ==> forall j | 0 <= j < n :: !RecordsAs(steps[j], id)
  {
    if n == 0 then None
    else if RecordsAs(steps[n - 1], id) then Some(n - 1)
    else LastRecorded(steps, n - 1, id)
  }

  /** `steps.<id>` has the result of the last step with this id and a valid policy: skipped when a step
      before it has failed, and otherwise what its last attempt came to. */
  lemma {:induction false} ResultsMean(steps: seq<Step>, n: nat, id: string)
    requires n <= |steps| && id != ""
    ensures var k := LastRecorded(steps, n, id);
      && (id in Results(steps, n) <==> k.Some?)
      && (k.Some? ==>
            Results(steps, n)[id] == if Blocked(steps, k.value) then Skipped else RecordedOfStep(steps[k.value]))
    decreases n
  {
    if n > 0 {
      ResultsMean(steps, n - 1, id);
      RecordedMeans(steps, n - 1);
    }
  }

  lemma RecordedMeans(steps: seq<Step>, i: nat)
    requires i < |steps|
    ensures steps[i].validPolicy ==>
      Recorded(steps, i) == if Blocked(steps, i) then Skipped else RecordedOfStep(steps[i])
  {
    StepOutcome(steps, i);
  }

  /** Steps are skipped after one that failed without leave to. */
  lemma {:induction false} BlockedMeans(steps: seq<Step>, i: nat)
    requires i <= |steps|
    ensures Blocked(steps, i) <==> exists j | 0 <= j < i :: OutcomeOf(steps, j).failed && !steps[j].continueOnError
  {
    if i > 0 {
      BlockedMeans(steps, i - 1);
    }
  }

  /** Once a step has failed without leave to, nothing more is seen: no later step does anything, and
      none binds a value; what was seen is what was seen up to that step. */
  lemma {:induction false} NothingAfterFailure(steps: seq<Step>, j: nat, n: nat)
    requires j < n <= |steps| && OutcomeOf(steps, j).failed && !steps[j].continueOnError
    ensures Log(steps, n) == Log(steps, j + 1)
  {
    if j + 1 < n {
      NothingAfterFailure(steps, j, n - 1);
      NoLogAfterFailure(steps, j, n - 1);
    }
  }

  /** The steps that come after it end as skipped. */
  lemma NoLogAfterFailure(steps: seq<Step>, j: nat, i: nat)
    requires j < i < |steps| && OutcomeOf(steps, j).failed && !steps[j].continueOnError
    ensures OutcomeOf(steps, i).log == []
    ensures steps[i].validPolicy ==> Recorded(steps, i) == Skipped
  {
    BlockedMeans(steps, i);
    StepOutcome(steps, i);
  }

  /** The k-th attempt of the step is made, and this is seen of it. */
  predicate SeenOfAttempt(step: Step, index: nat, k: nat, e: Event)
    requires k < |step.Tries()|
  {
    Made(step, k) && e in AttemptLog(step.Tries()[k], index, k)
  }

  /** From the k-th on, the step makes an attempt of which this is seen. */
  predicate SeenFrom(step: Step, index: nat, k: nat, e: Event) {
    exists i | k <= i < |step.Tries()| :: SeenOfAttempt(step, index, i, e)
  }

  lemma SeenFromNext(step: Step, index: nat, k: nat, e: Event)
    requires k < |step.Tries()| && Made(step, k)
    ensures SeenFrom(step, index, k, e) <==>
      e in AttemptLog(step.Tries()[k], index, k)
      || (AttemptFails(step.Tries()[k], k) && SeenFrom(step, index, k + 1, e))
  {
    if e in AttemptLog(step.Tries()[k], index, k) {
      assert SeenOfAttempt(step, index, k, e);
    } else if i :| k <= i < |step.Tries()| && SeenOfAttempt(step, index, i, e) {
      assert i > k;
    }
  }

  lemma {:induction false} LogFromMeans(step: Step, index: nat, k: nat, e: Event)
    requires k < |step.Tries()| && Made(step, k)
    ensures e in LogFrom(step, index, k) <==> SeenFrom(step, index, k, e)
    decreases |step.Tries()| - k
  {
    SeenFromNext(step, index, k, e);
    if AttemptFails(step.Tries()[k], k) && k + 1 < |step.Tries()| {
      LogFromMeans(step, index, k + 1, e);
    }
  }

  lemma SeenOfStep(steps: seq<Step>, i: nat, e: Event)
    requires i < |steps|
    ensures e in OutcomeOf(steps, i).log <==> !Blocked(steps, i) && steps[i].validPolicy && SeenFrom(steps[i], i, 0, e)
  {
    StepOutcome(steps, i);
    LogFromMeans(steps[i], i, 0, e);
  }

  /** A step shows this of itself. */
  predicate OwnOf(i: nat, e: Event) {
    (e.BodyRun? || e.VarsBound? || e.SecretsBound?) && e.step == i
  }

  lemma OwnOfAttempt(t: Try, index: nat, k: nat, e: Event, i: nat)
    requires e in AttemptLog(t, index, k) && OwnOf(i, e)
    ensures i == index
  {
    assert e !in AllWithin(index, Alone(t).log);
  }

  lemma SeenOfOwn(step: Step, index: nat, e: Event, i: nat)
    requires SeenFrom(step, index, 0, e) && OwnOf(i, e)
    ensures i == index
  {
    var k :| 0 <= k < |step.Tries()| && SeenOfAttempt(step, index, k, e);
    OwnOfAttempt(step.Tries()[k], index, k, e, i);
  }

  /** The step shows this of itself. */
  predicate Shows(steps: seq<Step>, i: nat, e: Event)
    requires i < |steps|
  {
    !Blocked(steps, i) && steps[i].validPolicy && SeenFrom(steps[i], i, 0, e)
  }

  lemma ShowsOwn(steps: seq<Step>, k: nat, i: nat, e: Event)
    requires k < |steps| && OwnOf(i, e)
    ensures e in OutcomeOf(steps, k).log <==> k == i && Shows(steps, k, e)
  {
    SeenOfStep(steps, k, e);
    if SeenFrom(steps[k], k, 0, e) {
      SeenOfOwn(steps[k], k, e, i);
    }
  }

  /** What a step shows of itself is in the log exactly when it makes an attempt in which it is seen. */
  lemma {:induction false} SeenMeans(steps: seq<Step>, n: nat, i: nat, e: Event)
    requires n <= |steps| && i < |steps|
    requires OwnOf(i, e)
    ensures e in Log(steps, n) <==> i < n && Shows(steps, i, e)
  {
    if n > 0 {
      SeenMeans(steps, n - 1, i, e);
      ShowsOwn(steps, n - 1, i, e);
      assert e in Log(steps, n) <==> e in Log(steps, n - 1) || e in OutcomeOf(steps, n - 1).log;
    }
  }

  /** What an earlier step shows of itself stands before what a later one does. */
  lemma {:induction false} StepsInOrder(steps: seq<Step>, n: nat, p: nat, q: nat, i: nat, j: nat)
    requires n <= |steps| && p < |Log(steps, n)| && q < |Log(steps, n)| && i < j < |steps|
    requires OwnOf(i, Log(steps, n)[p]) && OwnOf(j, Log(steps, n)[q])
    ensures p < q
    decreases n
  {
    var before := Log(steps, n - 1);
    SeenMeans(steps, n, j, Log(steps, n)[q]);
    assert Log(steps, n) == before + OutcomeOf(steps, n - 1).log;
    if p >= |before| {
      assert Log(steps, n)[p] in OutcomeOf(steps, n - 1).log;
      ShowsOwn(steps, n - 1, i, Log(steps, n)[p]);
    } else if q < |before| {
      StepsInOrder(steps, n - 1, p, q, i, j);
    }
  }

  /** The k-th attempt is made, can be reset and meets its condition. */
  predicate BodyRunsAt(step: Step, k: nat)
    requires k < |step.Tries()|
  {
    Made(step, k) && RunsBody(step.Tries()[k], k)
  }

  /** Besides, its body does not fail, and it has this value for the variables. */
  predicate VarsBoundAt(step: Step, k: nat, value: string)
    requires k < |step.Tries()|
  {
    BodyRunsAt(step, k) && !Alone(step.Tries()[k]).FailedHere() && step.Tries()[k].vars == Bound(value)
  }

  /** Its variables can be bound, if there are any, and it has this value for the secrets. */
  predicate SecretsBoundAt(step: Step, k: nat, value: string)
    requires k < |step.Tries()|
  {
    BodyRunsAt(step, k) && !Alone(step.Tries()[k]).FailedHere()
    && !step.Tries()[k].vars.Unbound? && step.Tries()[k].secrets == Bound(value)
  }

  lemma OwnOfAttemptMeans(step: Step, index: nat, k: nat, value: string)
    requires k < |step.Tries()|
    ensures SeenOfAttempt(step, index, k, BodyRun(index)) <==> BodyRunsAt(step, k)
    ensures SeenOfAttempt(step, index, k, VarsBound(index, value)) <==> VarsBoundAt(step, k, value)
    ensures SeenOfAttempt(step, index, k, SecretsBound(index, value)) <==> SecretsBoundAt(step, k, value)
  {
    var t := step.Tries()[k];
    if RunsBody(t, k) {
      assert AttemptLog(t, index, k)[0] == BodyRun(index);
      var inner := AllWithin(index, Alone(t).log);
      assert VarsBound(index, value) !in inner && SecretsBound(index, value) !in inner;
    }
  }

  /** A step runs its body exactly when no earlier step has failed without leave to, its policy is
      valid, and one of the attempts it makes can be reset and meets its condition. */
  lemma BodyRunMeans(steps: seq<Step>, n: nat, i: nat)
    requires i < n <= |steps|
    ensures BodyRun(i) in Log(steps, n) <==>
      !Blocked(steps, i) && steps[i].validPolicy && exists k | 0 <= k < |steps[i].Tries()| :: BodyRunsAt(steps[i], k)
  {
    SeenMeans(steps, n, i, BodyRun(i));
    forall k | 0 <= k < |steps[i].Tries()|
      ensures SeenOfAttempt(steps[i], i, k, BodyRun(i)) <==> BodyRunsAt(steps[i], k)
    {
      OwnOfAttemptMeans(steps[i], i, k, "");
    }
  }

  /** A step binds variables exactly when one of these attempts does not fail in its body and has a
      value for them. */
  lemma VarsBoundMeans(steps: seq<Step>, n: nat, i: nat, value: string)
    requires i < n <= |steps|
    ensures VarsBound(i, value) in Log(steps, n) <==>
      !Blocked(steps, i) && steps[i].validPolicy
      && exists k | 0 <= k < |steps[i].Tries()| :: VarsBoundAt(steps[i], k, value)
  {
    SeenMeans(steps, n, i, VarsBound(i, value));
    forall k | 0 <= k < |steps[i].Tries()|
      ensures SeenOfAttempt(steps[i], i, k, VarsBound(i, value)) <==> VarsBoundAt(steps[i], k, value)
    {
      OwnOfAttemptMeans(steps[i], i, k, value);
    }
  }

  /** It binds secrets exactly when one of them, besides, binds its variables. */
  lemma SecretsBoundMeans(steps: seq<Step>, n: nat, i: nat, value: string)
    requires i < n <= |steps|
    ensures SecretsBound(i, value) in Log(steps, n) <==>
      !Blocked(steps, i) && steps[i].validPolicy
      && exists k | 0 <= k < |steps[i].Tries()| :: SecretsBoundAt(steps[i], k, value)
  {
    SeenMeans(steps, n, i, SecretsBound(i, value));
    forall k | 0 <= k < |steps[i].Tries()|
      ensures SeenOfAttempt(steps[i], i, k, SecretsBound(i, value)) <==> SecretsBoundAt(steps[i], k, value)
    {
      OwnOfAttemptMeans(steps[i], i, k, value);
    }
  }

  lemma {:induction false} LastAttemptTells(step: Step, index: nat, k: nat)
    requires k < |step.Tries()| && forall t <- step.Tries() :: WorkKeepsNothing(t.body)
    ensures var last := LastTry(step, k);
      LastAttempt(AttemptsOf(step, index, false)[k..]).isolated <==>
      step.continueOnError && RunsBody(step.Tries()[last], last)
    decreases |step.Tries()| - k
  {
    AttemptMeans(step, index, step.Tries()[k], k, false);
    AttemptTells(step, index, step.Tries()[k], k, false);
    AttemptsFrom(AttemptsOf(step, index, false), k);
    if k + 1 < |step.Tries()| {
      LastAttemptTells(step, index, k + 1);
    }
  }

  /** A step tells the scenario of its failure unless it may fail and its last attempt got as far
      as its body: an invalid condition fails the scenario even where the step may fail. */
  lemma StepTells(steps: seq<Step>, i: nat)
    requires i < |steps| && forall t <- steps[i].Tries() :: WorkKeepsNothing(t.body)
    ensures var step, o, last := steps[i], OutcomeOf(steps, i), LastTry(steps[i], 0);
      o.told <==> o.failed && !(step.validPolicy && step.continueOnError && RunsBody(step.Tries()[last], last))
  {
    StepOutcome(steps, i);
    if steps[i].validPolicy && !Blocked(steps, i) {
      LastAttemptTells(steps[i], i, 0);
      assert AttemptsOf(steps[i], i, false)[0..] == AttemptsOf(steps[i], i, false);
    }
  }

  /** A step that may fail fails the scenario nevertheless, and the step after it runs its body. */
  lemma {:induction false} FailsAndGoesOn(steps: seq<Step>)
    requires |steps| > 1
    requires steps[0] == Step("", true, true, Try(true, Condition.Invalid, Direct([]), Nothing, Nothing), [])
    requires steps[1].validPolicy && RunsBody(steps[1].first, 0)
    ensures Told(steps, |steps|) && BodyRun(1) in Log(steps, |steps|)
  {
    StepOutcome(steps, 0);
    StepTells(steps, 0);
    assert AttemptFails(steps[0].Tries()[0], 0);
    BodyRunMeans(steps, |steps|, 1);
    assert BodyRunsAt(steps[1], 0);
  }

  /** The step goes on with the context of a test it included, which ran to its end without failing. */
  predicate ComesBack(work: Work) {
    work.Include? && var inner := Perform(FRESH, work.scenario); !inner.failed && !inner.skipped
  }

  /** An attempt whose body has failed binds nothing more, and is recorded as failed, if and only if
      it is not that of an include whose test does not fail: an include that timed out goes on. */
  lemma FailedBodyStops(t: Try, index: nat, attempt: nat)
    requires RunsBody(t, attempt) && Alone(t).failed
    ensures AttemptLog(t, index, attempt) == [BodyRun(index)] + AllWithin(index, Alone(t).log)
      <==> !ComesBack(t.body) || Bindings(t, index) == []
    ensures RecordedOfAttempt(t, attempt) == Failed <==>
      !ComesBack(t.body) || t.vars.Unbound? || t.secrets.Unbound?
  {
    var seen := [BodyRun(index)] + AllWithin(index, Alone(t).log);
    assert |seen + Bindings(t, index)| == |seen| + |Bindings(t, index)|;
    assert seen + [] == seen;
  }

  /** Such a step: it fails, binds its variables nevertheless, and is recorded as passed. */
  lemma {:induction false} TimedOutIncludeBinds(steps: seq<Step>, scenario: seq<Act>)
    requires |steps| > 0
    requires steps[0] == Step("a", false, true, Try(true, Holds, Include(scenario, [Fail]), Bound("v"), Nothing), [])
    requires ComesBack(Include(scenario, [Fail]))
    ensures OutcomeOf(steps, 0).failed && Blocked(steps, 1)
    ensures VarsBound(0, "v") in Log(steps, |steps|) && Results(steps, 1) == map["a" := Passed]
  {
    var t := steps[0].first;
    IncludeThenFails(scenario);
    assert AttemptFails(steps[0].Tries()[0], 0);
    StepOutcome(steps, 0);
    VarsBoundMeans(steps, |steps|, 0, "v");
    assert VarsBoundAt(steps[0], 0, "v");
  }

  lemma IncludeThenFails(scenario: seq<Act>)
    requires ComesBack(Include(scenario, [Fail]))
    ensures var o := PerformWork(FRESH, Include(scenario, [Fail]));
      o.failed && o.context.Below? && !o.context.failed
  {
    PerformFirst(FRESH.Sees(Perform(FRESH, scenario)), Fail, []);
  }
}
