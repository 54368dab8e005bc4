/** Correlation, wake-ups and shutdown of plugin calls, in every run. */
module WasmHostProofs {
  import opened WasmHost

  /** Holds the lock. */
  predicate Busy(p: Phase) {
    !p.AwaitLock? && !p.Returned?
  }

  predicate CallOk(s: State, c: nat)
    requires c < |s.calls|
  {
    var call := s.calls[c];
    && call.length > 0
    && (Busy(call.phase) <==> s.lock == ByCall(c))
    && (call.phase.Sending? || call.phase.AwaitAnswer? ==> call.length < NO_REQUEST)
    && (call.phase.Swapping? && call.phase.clean ==> call.phase.answer.of == c)
    && (call.phase.Posting? && call.phase.clean ==> call.phase.answer.of == c)
    && (call.phase.Returned? && call.phase.clean ==> call.phase.result.Some? && call.phase.result.value.of == c)
  }

  /** The requests under way: in the channel and with the guest. */
  function UnderWay(s: State): seq<nat> {
    s.requests +
    (if s.guest.Told? then [s.current]
     else if s.guest.Serving? then [s.guest.of]
     else if s.guest.Writing? then [s.guest.answer.of]
     else [])
  }

  /** The requests that calls wait for an answer to. */
  function Outstanding(s: State): seq<nat> {
    if s.lock.ByCall? && s.lock.c < |s.calls| && s.calls[s.lock.c].phase.AwaitAnswer? then [s.lock.c] else []
  }

  /** Before cancellation, what is under way is what is waited for. */
  predicate Balanced(s: State) {
    !s.Canceled() && !s.guest.Gone? ==> UnderWay(s) == Outstanding(s)
  }

  predicate ChannelOk(s: State) {
    && |s.requests| <= 1
    && (s.lock.ByCall? ==> s.lock.c < |s.calls|)
    && (forall r <- s.requests :: r < |s.calls| && s.calls[r].length < NO_REQUEST)
    && (s.guest.Told? ==>
          s.current < |s.calls| && s.guest.length == s.calls[s.current].length && 0 < s.guest.length < NO_REQUEST)
    && Balanced(s)
  }

  /** A guest that waits with another interval than the stored one is about to be woken. */
  predicate WakeOk(s: State) {
    s.guest.Waiting? && s.guest.interval != s.interval ==>
      s.token || (s.lock.ByCall? && s.lock.c < |s.calls| && s.calls[s.lock.c].phase.Posting?)
  }

  predicate CloserOk(s: State) {
    s.closer.AwaitCleanup? || s.closer.Closed? ==> s.guest.Gone?
  }

  predicate Good(s: State) {
    && (forall c | 0 <= c < |s.calls| :: CallOk(s, c))
    && ChannelOk(s) && WakeOk(s) && CloserOk(s)
  }

  /** Before cancellation, an answer is to the request of the call that waits for it. */
  lemma AnswersOwn(s: State, c: nat)
    requires ChannelOk(s) && s.Holds(c, AwaitAnswer) && s.guest.Writing? && !s.Canceled()
    ensures s.requests == [] && s.guest.answer.of == c
  {
    var of := s.guest.answer.of;
    assert UnderWay(s) == s.requests + [of] && Outstanding(s) == [c];
    assert |s.requests + [of]| == 1 && (s.requests + [of])[|s.requests|] == of;
  }

  lemma StepCalls(s: State, a: Action)
    requires Good(s) && Enabled(s, a)
    ensures forall c | 0 <= c < |Step(s, a).calls| :: CallOk(Step(s, a), c)
  {
    var s' := Step(s, a);
    if a.Receive? && !s.Canceled() {
      AnswersOwn(s, a.c);
    }
    forall c | 0 <= c < |s'.calls| ensures CallOk(s', c) {
      if c < |s.calls| {
        assert CallOk(s, c);
        if OfCall(a) && !a.NewCall? {
          assert CallOk(s, a.c);
        }
      }
    }
  }

  lemma StepBalanceOfCall(s: State, a: Action)
    requires Good(s) && Enabled(s, a) && OfCall(a)
    ensures Balanced(Step(s, a))
  {
    if !a.NewCall? {
      assert CallOk(s, a.c);
    }
    if a.Receive? && !s.Canceled() {
      AnswersOwn(s, a.c);
    }
  }

  lemma StepChannelOfCall(s: State, a: Action)
    requires Good(s) && Enabled(s, a) && OfCall(a)
    ensures ChannelOk(Step(s, a))
  {
    StepBalanceOfCall(s, a);
    if !a.NewCall? {
      assert CallOk(s, a.c);
    }
  }

  lemma StepChannelOfGuest(s: State, a: Action)
    requires Good(s) && Enabled(s, a) && !OfCall(a)
    ensures ChannelOk(Step(s, a))
  {
    if a.TakeRequest? {
      assert s.requests[0] in s.requests && s.requests == [s.requests[0]];
      assert CallOk(s, s.requests[0]);
    }
  }

  lemma StepWake(s: State, a: Action)
    requires Good(s) && Enabled(s, a)
    ensures WakeOk(Step(s, a)) && CloserOk(Step(s, a))
  {
    if OfCall(a) && !a.NewCall? {
      assert CallOk(s, a.c);
    }
  }

  lemma StepGood(s: State, a: Action)
    requires Good(s) && Enabled(s, a)
    ensures Good(Step(s, a))
  {
    StepCalls(s, a);
    if OfCall(a) {
      StepChannelOfCall(s, a);
    } else {
      StepChannelOfGuest(s, a);
    }
    StepWake(s, a);
  }

  lemma {:induction false} RunGood(s: State, actions: seq<Action>)
    requires Good(s) && Runs(s, actions)
    ensures Good(Exec(s, actions))
    decreases |actions|
  {
    if actions != [] {
      StepGood(s, actions[0]);
      RunGood(Step(s, actions[0]), actions[1..]);
    }
  }

  /** Before cancellation, and while the guest runs, at most one request is outstanding; a call that
      was answered before cancellation got the answer to its own request. */
  lemma CallsGetOwnAnswers(actions: seq<Action>, c: nat)
    requires Runs(Init(), actions) && c < |Exec(Init(), actions).calls|
    ensures var s := Exec(Init(), actions); var phase := s.calls[c].phase;
      && (!s.Canceled() && !s.guest.Gone? ==> |UnderWay(s)| <= 1 && UnderWay(s) == Outstanding(s))
      && (phase.Returned? && phase.clean ==> phase.result.Some? && phase.result.value.of == c)
  {
    RunGood(Init(), actions);
    assert CallOk(Exec(Init(), actions), c);
  }

  /** The length handed to the guest is that of the request it can read next, and neither what says that
      the plugin is cancelled nor what says that there is no request. */
  lemma LengthsAreReal(actions: seq<Action>)
    requires Runs(Init(), actions)
    ensures var s := Exec(Init(), actions);
      s.guest.Told? ==>
        s.current < |s.calls| && s.guest.length == s.calls[s.current].length && 0 < s.guest.length < 0xFFFF_FFFF
  {
    RunGood(Init(), actions);
  }

  /** A guest that waits with an outdated interval has a token to take, or the call that stored the
      new interval is about to post one. */
  lemma NoLostWakeUp(actions: seq<Action>)
    requires Runs(Init(), actions)
    ensures var s := Exec(Init(), actions);
      s.guest.Waiting? && s.guest.interval != s.interval ==>
        Enabled(s, TakeToken)
        || (s.lock.ByCall? && Enabled(s, Post(s.lock.c)) && Enabled(Step(s, Post(s.lock.c)), TakeToken))
  {
    RunGood(Init(), actions);
  }

  /** A guest that waits is told of a request that is there, of shutdown, or of a new interval, and that
      there is no request only if it polls. */
  lemma LeavesWaitFor(s: State, a: Action)
    requires Enabled(s, a) && s.guest.Waiting? && Step(s, a).guest != s.guest
    ensures match Step(s, a).guest
      case Told(length) =>
        && s.requests != [] && Step(s, a).requests == s.requests[1..] && Step(s, a).current == s.requests[0]
        && (s.requests[0] < |s.calls| ==> length == s.calls[s.requests[0]].length)
      case Loading => s.token && !Step(s, a).token
      case Outside => s.Canceled() || s.guest.interval > 0
      case _ => false
  {
  }

  /** The guest is gone and the call will not send: it has not passed its check, or has been through
      with sending, or finds a request in the channel that nobody takes any more. */
  predicate Late(s: State, c: nat) {
    s.guest.Gone? && c < |s.calls| && !(s.Holds(c, Sending) && s.requests == [])
  }

  lemma StepLate(s: State, a: Action, c: nat)
    requires Good(s) && Enabled(s, a) && Late(s, c)
    ensures a != Enqueue(c) && Late(Step(s, a), c)
  {
    assert CallOk(s, c);
    if OfCall(a) && !a.NewCall? {
      assert CallOk(s, a.c);
    }
  }

  lemma {:induction false} LateNeverSends(s: State, actions: seq<Action>, c: nat)
    requires Good(s) && Runs(s, actions) && Late(s, c)
    ensures Enqueue(c) !in actions
    decreases |actions|
  {
    if actions != [] {
      StepLate(s, actions[0], c);
      StepGood(s, actions[0]);
      LateNeverSends(Step(s, actions[0]), actions[1..], c);
    }
  }

  /** Once the guest is gone, a call may still send its request exactly when it has passed its check
      and the channel has room. */
  lemma SentAfterDoneWhen(s: State, c: nat)
    requires Good(s) && s.guest.Gone? && c < |s.calls|
    ensures (exists actions :: Runs(s, actions) && Enqueue(c) in actions) <==> s.Holds(c, Sending) && s.requests == []
  {
    if s.Holds(c, Sending) && s.requests == [] {
      var actions := [Enqueue(c)];
      assert Enabled(s, actions[0]) && actions[1..] == [];
      assert Runs(s, actions) && Enqueue(c) in actions;
    } else if actions :| Runs(s, actions) && Enqueue(c) in actions {
      LateNeverSends(s, actions, c);
    }
  }

  /** So a call that has not passed its check never sends. */
  lemma NothingSentAfterDone(s: State, actions: seq<Action>, c: nat)
    requires Good(s) && s.guest.Gone? && c < |s.calls| && Runs(s, actions)
    requires s.calls[c].phase.AwaitLock? || s.calls[c].phase.Checking?
    ensures Enqueue(c) !in actions
  {
    LateNeverSends(s, actions, c);
  }

  ghost predicate Reached(s: State) {
    exists actions :: Runs(Init(), actions) && Exec(Init(), actions) == s
  }

  lemma {:induction false} RunOn(s: State, actions: seq<Action>, a: Action)
    requires Runs(s, actions) && Enabled(Exec(s, actions), a)
    ensures Runs(s, actions + [a]) && Exec(s, actions + [a]) == Step(Exec(s, actions), a)
    decreases |actions|
  {
    if actions == [] {
      assert actions + [a] == [a];
    } else {
      assert (actions + [a])[1..] == actions[1..] + [a];
      RunOn(Step(s, actions[0]), actions[1..], a);
    }
  }

  lemma Reach(s: State, a: Action) returns (s': State)
    requires Reached(s) && Enabled(s, a)
    ensures Reached(s') && s' == Step(s, a)
  {
    var actions :| Runs(Init(), actions) && Exec(Init(), actions) == s;
    RunOn(Init(), actions, a);
    s' := Step(s, a);
  }

  lemma PassesCheck() returns (s: State)
    ensures Reached(s) && s == Init().(calls := [Call(1, Sending)], lock := ByCall(0))
  {
    assert Runs(Init(), []) && Exec(Init(), []) == Init();
    s := Reach(Init(), NewCall(1));
    s := Reach(s, Lock(0));
    s := Reach(s, Check(0));
  }

  /** A call that passed its check before may still send its request once the guest is gone, since
      the channel has room for it. */
  lemma SentAfterDone() returns (s: State)
    ensures Reached(s) && s.guest.Gone? && s.requests == []
    ensures Enabled(s, Enqueue(0)) && Step(s, Enqueue(0)).requests == [0]
  {
    s := PassesCheck();
    s := Reach(s, Cancel);
    s := Reach(s, CloseRuntime);
    s := Reach(s, Exit);
  }

  /** Bounds the steps left once the runtime is closed. */
  function CallRank(c: Call): nat {
    match c.phase
    case AwaitLock => 8
    case Checking => 7
    case Sending => 6
    case AwaitAnswer => 5
    case Swapping(_, _) => 4
    case Posting(_, _) => 3
    case Returned(_, _) => 0
  }

  function CallRanks(calls: seq<Call>): nat {
    if calls == [] then 0 else CallRanks(calls[..|calls| - 1]) + CallRank(calls[|calls| - 1])
  }

  function GuestRank(g: Guest): nat {
    if g.Gone? then 0 else if g.Loading? then 4 else if g.Waiting? || g.Writing? then 3 else 1
  }

  function Rank(s: State): nat {
    CallRanks(s.calls) + GuestRank(s.guest) + (if s.token then 2 else 0)
    + (if s.closer.Closed? then 0 else if s.closer.AwaitCleanup? then 1 else 2)
  }

  lemma {:induction false} MoveRanks(calls: seq<Call>, c: nat, call: Call)
    requires c < |calls|
    ensures CallRanks(calls[c := call]) == CallRanks(calls) - CallRank(calls[c]) + CallRank(call)
  {
    var k := |calls| - 1;
    if c == k {
      assert calls[c := call][..k] == calls[..k];
    } else {
      assert calls[c := call][..k] == calls[..k][c := call];
      MoveRanks(calls[..k], c, call);
    }
  }

  /** A call that goes on, or lets go, without the guest. */
  lemma StepRankAlone(s: State, a: Action)
    requires Enabled(s, a) && !Alive(s)
    requires a.Lock? || a.Check? || a.Enqueue? || a.SendFails? || a.ReadFails? || a.DecodeFails?
    ensures Rank(Step(s, a)) < Rank(s) && !Alive(Step(s, a))
  {
    MoveRanks(s.calls, a.c, Step(s, a).calls[a.c]);
  }

  lemma StepRankAnswered(s: State, a: Action)
    requires Enabled(s, a) && !Alive(s) && (a.Receive? || a.Swap? || a.Post?)
    ensures Rank(Step(s, a)) < Rank(s) && !Alive(Step(s, a))
  {
    MoveRanks(s.calls, a.c, Step(s, a).calls[a.c]);
  }

  lemma StepRankOfGuest(s: State, a: Action)
    requires Enabled(s, a) && !OfCall(a) && !Alive(s)
    ensures Rank(Step(s, a)) < Rank(s) && !Alive(Step(s, a))
  {
  }

  lemma StepRank(s: State, a: Action)
    requires Enabled(s, a) && !a.NewCall? && !Alive(s)
    ensures Rank(Step(s, a)) < Rank(s) && !Alive(Step(s, a))
  {
    if a.Receive? || a.Swap? || a.Post? {
      StepRankAnswered(s, a);
    } else if OfCall(a) {
      StepRankAlone(s, a);
    } else {
      StepRankOfGuest(s, a);
    }
  }

  /** Shut down, with no call blocked. */
  predicate Over(s: State) {
    s.closer.Closed? && forall c | 0 <= c < |s.calls| :: s.calls[c].phase.Returned?
  }

  /** The call that holds the lock can go on once the guest is gone. */
  lemma CallGoesOn(s: State, c: nat) returns (a: Action)
    requires Good(s) && s.guest.Gone? && s.lock == ByCall(c)
    ensures Enabled(s, a) && !a.NewCall?
  {
    assert CallOk(s, c);
    a := match s.calls[c].phase
      case Checking => Check(c)
      case Sending => SendFails(c)
      case AwaitAnswer => ReadFails(c)
      case Swapping(_, _) => Swap(c)
      case Posting(_, _) => Post(c);
  }

  /** Once the runtime is closed, some step is possible until all is over. */
  lemma NeverStuck(s: State) returns (a: Action)
    requires Good(s) && !Alive(s) && !Over(s)
    ensures Enabled(s, a) && !a.NewCall?
  {
    if s.guest.Loading? {
      a := Load;
    } else if s.guest.Waiting? {
      a := SeeCancel;
    } else if s.guest.Writing? {
      a := WriteCanceled;
    } else if !s.guest.Gone? {
      a := Exit;
    } else if s.closer.RuntimeClosed? {
      a := SeeDone;
    } else if s.lock.ByCall? {
      a := CallGoesOn(s, s.lock.c);
    } else if s.closer.AwaitCleanup? {
      a := CleanUp;
    } else {
      var c :| 0 <= c < |s.calls| && !s.calls[c].phase.Returned?;
      assert CallOk(s, c);
      a := Lock(c);
    }
  }

  /** However steps are chosen, shutdown takes a bounded number of them, but for new calls. */
  lemma {:induction false} ShutdownIsBounded(s: State, actions: seq<Action>)
    requires !Alive(s) && Runs(s, actions) && forall a <- actions :: !a.NewCall?
    ensures |actions| <= Rank(s)
    decreases |actions|
  {
    if actions != [] {
      StepRank(s, actions[0]);
      ShutdownIsBounded(Step(s, actions[0]), actions[1..]);
    }
  }

  /** After the runtime is closed, the guest ends, every call returns, and so does the shutdown. */
  lemma {:induction false} ShutdownCompletes(s: State) returns (actions: seq<Action>)
    requires Good(s) && !Alive(s)
    ensures Runs(s, actions) && (forall a <- actions :: !a.NewCall?) && Over(Exec(s, actions))
    decreases Rank(s)
  {
    if Over(s) {
      actions := [];
    } else {
      var a := NeverStuck(s);
      StepRank(s, a);
      StepGood(s, a);
      var rest := ShutdownCompletes(Step(s, a));
      actions := [a] + rest;
      assert actions[1..] == rest;
    }
  }
}
