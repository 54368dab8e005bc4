/** Calls of one lazy value at the same time.

    Each call but the first executes the template again, and leaves the channel of its execution in a
    variable that all calls share. It gives the actual value to its own execution, then looks at the
    variable, and waits at the channel that it found there. An execution sends its result once. */
module LazyCalls {
  import opened Ast
  import opened Evaluator
  import opened Options
  import opened Values

  datatype Template = Template(world: World, data: Value, expr: Expr)
  {
    /** What an execution sends once it has its actual value. */
    function Result(actual: Value): Out {
      Eval(world, data, Some(actual), expr)
    }
  }

  /** An execution, whose channel goes by the same number, and whether its result was received. */
  datatype Execution = Execution(actual: Option<Value>, received: bool)

  datatype Phase = Setting | Looking | Waiting(channel: nat) | Returned(channel: nat, out: Out)

  datatype Invocation = Invocation(actual: Value, own: nat, phase: Phase)

  /** `claimed` tells whether a call goes on with the execution that was waiting, `done` is the shared
      variable, and calls are listed as they begin. */
  datatype State = State(claimed: bool, done: nat, executions: seq<Execution>, calls: seq<Invocation>)
  {
    predicate In(k: nat, phase: Phase) {
      k < |calls| && calls[k].phase == phase
    }

    /** A call waits for a result that can be received. */
    predicate CanReceive(k: nat) {
      && k < |calls| && calls[k].phase.Waiting? && calls[k].phase.channel < |executions|
      && executions[calls[k].phase.channel].actual.Some? && !executions[calls[k].phase.channel].received
    }

    /** A call whose channel is that of its own execution. */
    predicate OwnChannel(k: nat) {
      k < |calls| && (calls[k].phase.Waiting? || calls[k].phase.Returned?) && calls[k].phase.channel == calls[k].own
    }
  }

  const INIT := State(false, 0, [Execution(None, false)], [])

  datatype Action = Begin(actual: Value) | Set(k: nat) | Look(k: nat) | Receive(k: nat)

  predicate Enabled(s: State, a: Action) {
    match a
    case Begin(_) => true
    case Set(k) => s.In(k, Setting) && s.calls[k].own < |s.executions|
    case Look(k) => s.In(k, Looking)
    case Receive(k) => s.CanReceive(k)
  }

  function Step(t: Template, s: State, a: Action): State
    requires Enabled(s, a)
  {
    match a
    case Begin(v) =>
      if !s.claimed then s.(claimed := true, calls := s.calls + [Invocation(v, 0, Setting)])
      else
        var own := |s.executions|;
        s.(done := own, executions := s.executions + [Execution(None, false)],
           calls := s.calls + [Invocation(v, own, Setting)])
    case Set(k) =>
      var c := s.calls[k];
      s.(executions := s.executions[c.own := s.executions[c.own].(actual := Some(c.actual))],
         calls := s.calls[k := c.(phase := Looking)])
    case Look(k) => s.(calls := s.calls[k := s.calls[k].(phase := Waiting(s.done))])
    case Receive(k) =>
      var channel := s.calls[k].phase.channel;
      var e := s.executions[channel];
      s.(executions := s.executions[channel := e.(received := true)],
         calls := s.calls[k := s.calls[k].(phase := Returned(channel, t.Result(e.actual.value)))])
  }

  predicate Runs(t: Template, s: State, actions: seq<Action>)
    decreases |actions|
  {
    actions == [] || (Enabled(s, actions[0]) && Runs(t, Step(t, s, actions[0]), actions[1..]))
  }

  function Exec(t: Template, s: State, actions: seq<Action>): State
    requires Runs(t, s, actions)
    decreases |actions|
  {
    if actions == [] then s else Exec(t, Step(t, s, actions[0]), actions[1..])
  }

  /** The execution of a call goes by the number of the call, and has its value once it is set. */
  predicate Numbered(s: State) {
    && |s.executions| == (if s.calls == [] then 1 else |s.calls|) && s.done == |s.executions| - 1
    && (s.claimed <==> s.calls != []) && (s.calls == [] ==> s.executions[0] == Execution(None, false))
    && forall k | 0 <= k < |s.calls| :: s.calls[k].own == k &&
         s.executions[k].actual == if s.calls[k].phase.Setting? then None else Some(s.calls[k].actual)
  }

  /** A call waits at its own channel or at that of a later call. */
  predicate Later(s: State) {
    forall k | 0 <= k < |s.calls| && (s.calls[k].phase.Waiting? || s.calls[k].phase.Returned?) ::
      k <= s.calls[k].phase.channel < |s.calls|
  }

  /** A result is received by one call, which returns it. */
  predicate ReceivedBy(t: Template, s: State, k: nat)
    requires k < |s.calls|
  {
    var c := s.calls[k];
    c.phase.Returned? ==>
      && c.phase.channel < |s.executions| && s.executions[c.phase.channel].received
      && s.executions[c.phase.channel].actual.Some?
      && c.phase.out == t.Result(s.executions[c.phase.channel].actual.value)
  }

  /** A channel gives its result to one call. */
  predicate Apart(s: State, j: nat, k: nat)
    requires j < |s.calls| && k < |s.calls|
  {
    j != k && s.calls[j].phase.Returned? && s.calls[k].phase.Returned? ==>
      s.calls[j].phase.channel != s.calls[k].phase.channel
  }

  predicate Receives(s: State, k: nat, e: nat) {
    k < |s.calls| && s.calls[k].phase.Returned? && s.calls[k].phase.channel == e
  }

  predicate ReceivedOnce(t: Template, s: State) {
    && (forall k | 0 <= k < |s.calls| :: ReceivedBy(t, s, k))
    && (forall j, k | 0 <= j < |s.calls| && 0 <= k < |s.calls| :: Apart(s, j, k))
    && (forall e | 0 <= e < |s.executions| && s.executions[e].received ::
          exists k | 0 <= k < |s.calls| :: Receives(s, k, e))
  }

  predicate Good(t: Template, s: State) {
    Numbered(s) && Later(s) && ReceivedOnce(t, s)
  }

  lemma StepNumbered(t: Template, s: State, a: Action)
    requires Numbered(s) && Later(s) && Enabled(s, a)
    ensures Numbered(Step(t, s, a)) && Later(Step(t, s, a))
  {
  }

  lemma StepReceivedBy(t: Template, s: State, a: Action, k: nat)
    requires Good(t, s) && Enabled(s, a) && k < |Step(t, s, a).calls|
    ensures ReceivedBy(t, Step(t, s, a), k)
  {
    assert k < |s.calls| ==> ReceivedBy(t, s, k);
  }

  lemma StepApart(t: Template, s: State, a: Action, j: nat, k: nat)
    requires Good(t, s) && Enabled(s, a) && j < |Step(t, s, a).calls| && k < |Step(t, s, a).calls|
    ensures Apart(Step(t, s, a), j, k)
  {
    if j < |s.calls| && k < |s.calls| {
      assert Apart(s, j, k) && ReceivedBy(t, s, j) && ReceivedBy(t, s, k);
    }
  }

  lemma StepReceiver(t: Template, s: State, a: Action, e: nat) returns (k: nat)
    requires Good(t, s) && Enabled(s, a)
    requires e < |Step(t, s, a).executions| && Step(t, s, a).executions[e].received
    ensures k < |Step(t, s, a).calls| && Receives(Step(t, s, a), k, e)
  {
    if a.Receive? && e == s.calls[a.k].phase.channel {
      k := a.k;
    } else {
      k :| k < |s.calls| && Receives(s, k, e);
    }
  }

  lemma StepReceived(t: Template, s: State, a: Action)
    requires Good(t, s) && Enabled(s, a)
    ensures ReceivedOnce(t, Step(t, s, a))
  {
    var s' := Step(t, s, a);
    forall k | 0 <= k < |s'.calls| ensures ReceivedBy(t, s', k) {
      StepReceivedBy(t, s, a, k);
    }
    forall j, k | 0 <= j < |s'.calls| && 0 <= k < |s'.calls| ensures Apart(s', j, k) {
      StepApart(t, s, a, j, k);
    }
    forall e | 0 <= e < |s'.executions| && s'.executions[e].received
      ensures exists k | 0 <= k < |s'.calls| :: Receives(s', k, e)
    {
      var k := StepReceiver(t, s, a, e);
    }
  }

  lemma StepGood(t: Template, s: State, a: Action)
    requires Good(t, s) && Enabled(s, a)
    ensures Good(t, Step(t, s, a))
  {
    StepNumbered(t, s, a);
    StepReceived(t, s, a);
  }

  lemma {:induction false} RunGood(t: Template, s: State, actions: seq<Action>)
    requires Good(t, s) && Runs(t, s, actions)
    ensures Good(t, Exec(t, s, actions))
    decreases |actions|
  {
    if actions != [] {
      StepGood(t, s, actions[0]);
      RunGood(t, Step(t, s, actions[0]), actions[1..]);
    }
  }

  /** The calls that are there stay, and others are added only when they begin. */
  lemma {:induction false} CallsGrow(t: Template, s: State, actions: seq<Action>)
    requires Runs(t, s, actions)
    ensures |Exec(t, s, actions).calls| >= |s.calls|
    ensures |Exec(t, s, actions).calls| == |s.calls| <==> forall a <- actions :: !a.Begin?
    decreases |actions|
  {
    if actions != [] {
      CallsGrow(t, Step(t, s, actions[0]), actions[1..]);
      assert actions == [actions[0]] + actions[1..];
    }
  }

  /** Whose result a call gets is decided when it looks: its own, if and only if no other call has
      begun since it did. */
  lemma LooksAtOwn(t: Template, before: seq<Action>, v: Value, between: seq<Action>)
    requires Runs(t, INIT, before) && Runs(t, Step(t, Exec(t, INIT, before), Begin(v)), between)
    requires Exec(t, Step(t, Exec(t, INIT, before), Begin(v)), between).In(|Exec(t, INIT, before).calls|, Looking)
    ensures var k := |Exec(t, INIT, before).calls|;
      var s := Exec(t, Step(t, Exec(t, INIT, before), Begin(v)), between);
      Step(t, s, Look(k)).OwnChannel(k) <==> forall a <- between :: !a.Begin?
  {
    var s := Exec(t, INIT, before);
    RunGood(t, INIT, before);
    StepGood(t, s, Begin(v));
    RunGood(t, Step(t, s, Begin(v)), between);
    CallsGrow(t, Step(t, s, Begin(v)), between);
  }

  /** A call that returns does so with the result for the value of the call whose channel it is. */
  lemma ReturnsResultOfChannel(t: Template, actions: seq<Action>, k: nat)
    requires Runs(t, INIT, actions) && k < |Exec(t, INIT, actions).calls|
    requires Exec(t, INIT, actions).calls[k].phase.Returned?
    ensures var s := Exec(t, INIT, actions);
      var channel := s.calls[k].phase.channel;
      k <= channel < |s.calls| && s.calls[k].phase.out == t.Result(s.calls[channel].actual)
  {
    RunGood(t, INIT, actions);
    assert ReceivedBy(t, Exec(t, INIT, actions), k);
  }

  /** When all calls from `k` on have returned, each of them from its own execution, since a channel
      gives one result and nobody waits at the channel of an earlier call. */
  lemma {:induction false} LastOnesFirst(t: Template, s: State, k: nat)
    requires Good(t, s) && k <= |s.calls| && forall j | k <= j < |s.calls| :: s.calls[j].phase.Returned?
    ensures forall j | k <= j < |s.calls| :: s.OwnChannel(j)
    decreases |s.calls| - k
  {
    if k < |s.calls| {
      LastOnesFirst(t, s, k + 1);
      forall j | k < j < |s.calls| ensures !Receives(s, k, j) {
        assert s.OwnChannel(j) && Apart(s, k, j);
      }
      assert Receives(s, k, s.calls[k].phase.channel);
    }
  }

  /** Every call gets the result for its own value whenever all calls return. */
  lemma AllReturnedOwn(t: Template, actions: seq<Action>)
    requires Runs(t, INIT, actions)
    requires var s := Exec(t, INIT, actions); forall k | 0 <= k < |s.calls| :: s.calls[k].phase.Returned?
    ensures var s := Exec(t, INIT, actions);
      forall k | 0 <= k < |s.calls| :: s.calls[k].phase.out == t.Result(s.calls[k].actual)
  {
    RunGood(t, INIT, actions);
    var s := Exec(t, INIT, actions);
    LastOnesFirst(t, s, 0);
    forall k | 0 <= k < |s.calls| ensures s.calls[k].phase.out == t.Result(s.calls[k].actual) {
      assert s.OwnChannel(k) && ReceivedBy(t, s, k);
    }
  }

  /** Only further calls could happen. */
  ghost predicate Quiet(s: State) {
    forall a :: Enabled(s, a) ==> a.Begin?
  }

  /** When nothing goes on any more, all calls have returned if and only if each of them looked at the
      channel of its own execution. */
  lemma AllReturnWhenOwn(t: Template, actions: seq<Action>)
    requires Runs(t, INIT, actions) && Quiet(Exec(t, INIT, actions))
    ensures var s := Exec(t, INIT, actions);
      (forall k | 0 <= k < |s.calls| :: s.calls[k].phase.Returned?) <==>
      (forall k | 0 <= k < |s.calls| :: s.OwnChannel(k))
  {
    RunGood(t, INIT, actions);
    var s := Exec(t, INIT, actions);
    if forall k | 0 <= k < |s.calls| :: s.calls[k].phase.Returned? {
      LastOnesFirst(t, s, 0);
    }
    if forall k | 0 <= k < |s.calls| :: s.OwnChannel(k) {
      forall k | 0 <= k < |s.calls| ensures s.calls[k].phase.Returned? {
        assert s.OwnChannel(k);
        assert !Enabled(s, Receive(k));
        if s.executions[k].received {
          var j :| 0 <= j < |s.calls| && Receives(s, j, k);
          assert s.OwnChannel(j);
        }
      }
    }
  }

  /** Whoever waits at a channel whose result was received does so for ever. */
  lemma {:induction false} WaitsForEver(t: Template, s: State, k: nat, channel: nat, actions: seq<Action>)
    requires Runs(t, s, actions) && s.In(k, Waiting(channel))
    requires channel < |s.executions| && s.executions[channel].received
    ensures Exec(t, s, actions).In(k, Waiting(channel))
    decreases |actions|
  {
    if actions != [] {
      WaitsForEver(t, Step(t, s, actions[0]), k, channel, actions[1..]);
    }
  }

  /** A run goes on by one step. */
  lemma {:induction false} Goes(t: Template, start: State, actions: seq<Action>, s: State, a: Action)
    returns (s': State)
    requires Runs(t, start, actions) && Exec(t, start, actions) == s && Enabled(s, a)
    ensures s' == Step(t, s, a) && Runs(t, start, actions + [a]) && Exec(t, start, actions + [a]) == s'
    decreases |actions|
  {
    if actions == [] {
      assert actions + [a] == [a];
      s' := Step(t, s, a);
    } else {
      assert (actions + [a])[1..] == actions[1..] + [a];
      s' := Goes(t, Step(t, start, actions[0]), actions[1..], s, a);
    }
  }

  /** Two calls that begin before either looks: the first returns the result for the value of the
      second, which waits for ever. */
  lemma TwoCalls(t: Template, v: Value, w: Value, later: seq<Action>) returns (actions: seq<Action>)
    ensures Runs(t, INIT, actions)
    ensures Exec(t, INIT, actions).In(0, Returned(1, t.Result(w)))
    ensures Exec(t, INIT, actions).calls[0].actual == v && Exec(t, INIT, actions).In(1, Waiting(1))
    ensures Runs(t, Exec(t, INIT, actions), later) ==>
      Exec(t, Exec(t, INIT, actions), later).In(1, Waiting(1))
  {
    var s1 := Goes(t, INIT, [], INIT, Begin(v));
    var s2 := Goes(t, INIT, [Begin(v)], s1, Begin(w));
    actions := [Begin(v), Begin(w)];
    var s3 := Goes(t, INIT, actions, s2, Set(0));
    actions := actions + [Set(0)];
    var s4 := Goes(t, INIT, actions, s3, Set(1));
    actions := actions + [Set(1)];
    var s5 := Goes(t, INIT, actions, s4, Look(0));
    actions := actions + [Look(0)];
    var s6 := Goes(t, INIT, actions, s5, Look(1));
    actions := actions + [Look(1)];
    var s7 := Goes(t, INIT, actions, s6, Receive(0));
    actions := actions + [Receive(0)];
    if Runs(t, s7, later) {
      WaitsForEver(t, s7, 1, 1, later);
    }
  }
}
