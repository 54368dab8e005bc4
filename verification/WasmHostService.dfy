/** Calls of a plugin are served: which are refused, and how every other one is answered. */
module WasmHostService {
  import opened Options
  import opened WasmHost
  import opened WasmHostProofs

  /** While the guest runs, a call that holds the lock is refused at its check if and only if its
      length cannot be told from what means that there is no request. */
  lemma RefusedWhenTooLong(s: State, c: nat)
    requires s.Holds(c, Checking) && !s.guest.Gone?
    ensures var s' := Step(s, Check(c));
      && (s.calls[c].length >= 0xFFFF_FFFF <==> s'.calls[c].phase == Returned(None, false) && s'.lock.Nobody?)
      && (s.calls[c].length < 0xFFFF_FFFF <==> s'.Holds(c, Sending))
  {
  }

  /** The guest runs and nobody has asked for shutdown. */
  predicate Working(s: State) {
    s.closer.Open? && !s.guest.Gone?
  }

  /** The call holds the lock, and the answer it gets, or has got, is this one. */
  predicate Owed(s: State, c: nat, answer: Answer) {
    && c < |s.calls| && s.lock == ByCall(c) && answer.of == c
    && match s.calls[c].phase
       case Checking => s.calls[c].length < 0xFFFF_FFFF
       case Sending => true
       case AwaitAnswer => s.guest.Writing? ==> s.guest.answer == answer
       case Swapping(a, clean) => a == answer && clean
       case Posting(a, clean) => a == answer && clean && s.interval == answer.interval
       case _ => false
  }

  predicate Answered(s: State, c: nat, answer: Answer) {
    && c < |s.calls| && s.calls[c].phase == Returned(Some(answer), true) && s.lock.Nobody?
    && s.interval == answer.interval
  }

  /** The next step towards the answer. */
  function Serve(s: State, c: nat, answer: Answer): Action
    requires Owed(s, c, answer)
  {
    match s.calls[c].phase
    case Checking => Check(c)
    case Sending => Enqueue(c)
    case AwaitAnswer =>
      (match s.guest
       case Outside => EnterReadLength
       case Loading => Load
       case Waiting(_) => TakeRequest
       case Told(_) => Read
       case Serving(_) => Write(answer.interval)
       case _ => Receive(c))
    case Swapping(_, _) => Swap(c)
    case _ => Post(c)
  }

  function CallSteps(p: Phase): nat {
    match p
    case Checking => 5
    case Sending => 4
    case AwaitAnswer => 3
    case Swapping(_, _) => 2
    case _ => 1
  }

  function GuestSteps(g: Guest): nat {
    match g
    case Outside => 5
    case Loading => 4
    case Waiting(_) => 3
    case Told(_) => 2
    case Serving(_) => 1
    case _ => 0
  }

  /** Nothing changes for other calls. */
  predicate OthersStay(s: State, s': State, c: nat) {
    |s.calls| == |s'.calls| && forall d | 0 <= d < |s.calls| && d != c :: s'.calls[d] == s.calls[d]
  }

  /** The request is in the channel, or with the guest, while the call waits. */
  lemma WhereTheRequestIs(s: State, c: nat)
    requires Good(s) && Working(s) && s.lock == ByCall(c)
    ensures c < |s.calls| && (s.calls[c].phase.Sending? ==> s.requests == [])
    ensures s.calls[c].phase.AwaitAnswer? ==>
      if s.guest.Told? then s.current == c && s.requests == []
      else if s.guest.Serving? then s.guest.of == c && s.requests == []
      else if s.guest.Writing? then s.guest.answer.of == c && s.requests == []
      else s.requests == [c]
  {
    assert CallOk(s, c);
    var with := UnderWay(s)[|s.requests|..];
    assert UnderWay(s) == s.requests + with && |UnderWay(s)| == |s.requests| + |with|;
    if s.calls[c].phase.AwaitAnswer? && with != [] {
      assert UnderWay(s)[|s.requests|] == with[0] == c;
    }
  }

  lemma StepServes(s: State, c: nat, answer: Answer)
    requires Good(s) && Working(s) && Owed(s, c, answer)
    ensures var a := Serve(s, c, answer);
      && Enabled(s, a) && var s' := Step(s, a);
      && Working(s') && OthersStay(s, s', c)
      && (Answered(s', c, answer) ||
          (Owed(s', c, answer) &&
           (CallSteps(s'.calls[c].phase) < CallSteps(s.calls[c].phase) ||
            (s'.calls[c].phase == s.calls[c].phase && GuestSteps(s'.guest) < GuestSteps(s.guest)))))
  {
    WhereTheRequestIs(s, c);
    assert CallOk(s, c);
  }

  lemma {:induction false} RunBoth(s: State, first: seq<Action>, second: seq<Action>)
    requires Runs(s, first) && Runs(Exec(s, first), second)
    ensures Runs(s, first + second) && Exec(s, first + second) == Exec(Exec(s, first), second)
    decreases |first|
  {
    if first == [] {
      assert first + second == second;
    } else {
      assert (first + second)[1..] == first[1..] + second;
      RunBoth(Step(s, first[0]), first[1..], second);
    }
  }

  /** A call that holds the lock can be served, and then holds it no more. */
  lemma {:induction false} Served(s: State, c: nat, answer: Answer) returns (actions: seq<Action>)
    requires Good(s) && Working(s) && Owed(s, c, answer)
    ensures Runs(s, actions)
    ensures var s' := Exec(s, actions);
      Good(s') && Working(s') && OthersStay(s, s', c) && Answered(s', c, answer)
    decreases CallSteps(s.calls[c].phase), GuestSteps(s.guest)
  {
    var a := Serve(s, c, answer);
    StepServes(s, c, answer);
    StepGood(s, a);
    var next := Step(s, a);
    var rest := [];
    if !Answered(next, c, answer) {
      rest := Served(next, c, answer);
    }
    actions := [a] + rest;
    assert actions[1..] == rest;
  }

  /** The lock can be freed, whoever holds it. */
  lemma Freed(s: State) returns (actions: seq<Action>)
    requires Good(s) && Working(s)
    ensures Runs(s, actions)
    ensures var s' := Exec(s, actions);
      Good(s') && Working(s') && s'.lock.Nobody? && |s'.calls| == |s.calls| &&
      forall d | 0 <= d < |s.calls| && s.calls[d].phase.AwaitLock? :: s'.calls[d] == s.calls[d]
  {
    if s.lock.Nobody? {
      actions := [];
    } else {
      var d := s.lock.c;
      assert CallOk(s, d);
      var phase := s.calls[d].phase;
      if phase.Swapping? || phase.Posting? || (phase.Checking? && s.calls[d].length >= 0xFFFF_FFFF) {
        actions := LetsGo(s, d);
      } else {
        var answer := if phase.AwaitAnswer? && s.guest.Writing? then s.guest.answer else Answer(d, 0);
        WhereTheRequestIs(s, d);
        actions := Served(s, d, answer);
      }
    }
  }

  /** A call that is refused, or has its answer already, lets go of the lock. */
  lemma LetsGo(s: State, d: nat) returns (actions: seq<Action>)
    requires Good(s) && Working(s) && d < |s.calls| && s.lock == ByCall(d)
    requires var phase := s.calls[d].phase;
      phase.Swapping? || phase.Posting? || (phase.Checking? && s.calls[d].length >= 0xFFFF_FFFF)
    ensures Runs(s, actions)
    ensures var s' := Exec(s, actions);
      Good(s') && Working(s') && s'.lock.Nobody? && OthersStay(s, s', d)
  {
    var phase := s.calls[d].phase;
    var a := if phase.Checking? then Check(d) else if phase.Swapping? then Swap(d) else Post(d);
    assert CallOk(s, d);
    StepGood(s, a);
    OneStep(s, a);
    actions := [a];
    var next := Step(s, a);
    if !next.lock.Nobody? {
      StepGood(next, Post(d));
      OneStep(next, Post(d));
      RunBoth(s, [a], [Post(d)]);
      actions := [a] + [Post(d)];
    }
  }

  lemma OneStep(s: State, a: Action)
    requires Enabled(s, a)
    ensures Runs(s, [a]) && Exec(s, [a]) == Step(s, a)
  {
    assert [a][1..] == [];
  }

  /** From every reachable state before shutdown in which the guest runs, a call that has not been
      sent yet and is not too long can be answered, whatever interval the guest chooses: it returns
      the answer to its own request, and the interval is stored. */
  lemma CallsCanBeAnswered(before: seq<Action>, c: nat, interval: nat) returns (actions: seq<Action>)
    requires Runs(Init(), before) && Working(Exec(Init(), before)) && c < |Exec(Init(), before).calls|
    requires var call := Exec(Init(), before).calls[c];
      call.length < 0xFFFF_FFFF && (call.phase.AwaitLock? || call.phase.Checking? || call.phase.Sending?)
    ensures Runs(Init(), before + actions)
    ensures var s := Exec(Init(), before + actions);
      c < |s.calls| && s.calls[c].phase == Returned(Some(Answer(c, interval)), true) && s.interval == interval
  {
    RunGood(Init(), before);
    var s := Exec(Init(), before);
    assert CallOk(s, c);
    if s.calls[c].phase.AwaitLock? {
      var free := Freed(s);
      var freed := Exec(s, free);
      StepGood(freed, Lock(c));
      var locked := Step(freed, Lock(c));
      var serve := Served(locked, c, Answer(c, interval));
      assert ([Lock(c)] + serve)[1..] == serve;
      RunBoth(s, free, [Lock(c)] + serve);
      actions := free + ([Lock(c)] + serve);
    } else {
      actions := Served(s, c, Answer(c, interval));
    }
    RunBoth(Init(), before, actions);
  }
}
