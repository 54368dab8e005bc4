/** A list of streamed messages that one goroutine fills while others wait for messages by index. */
module StreamBuffer {
  import opened Options

  /** How an attempt to get a message ends. */
  datatype Fate<T, E> =
    | Message(m: T)
    | Closed                 // the stream ended without it
    | Stopped(reason: E)     // the stream did not end, it stopped
    | Interrupted(cause: E)  // the caller's context ended first

  datatype Contents<T, E> = Contents(items: seq<T>, done: bool, closeErr: Option<E>) {
    /** Where an index points; a negative one counts from the end. */
    function Position(i: int): int {
      if i >= 0 then i else |items| + i
    }

    /** The message an index names. Counting from the end makes sense after a clean end only. */
    predicate Names(i: int) {
      0 <= Position(i) < |items| && (i >= 0 || (done && closeErr.None?))
    }

    /** With what the stream has been closed, if it has. */
    function Ending(): Option<Option<E>> {
      if done then Some(closeErr) else None
    }

    /** What a caller is told, or nothing if it has to wait. */
    function Decide(i: int, ctxErr: Option<E>): Option<Fate<T, E>> {
      if Names(i) then Some(Message(items[Position(i)]))
      else if done then Some(if closeErr.Some? then Stopped(closeErr.value) else Closed)
      else if ctxErr.Some? then Some(Interrupted(ctxErr.value))
      else None
    }
  }

  class Buffer<T, E> {
    var items: seq<T>
    var done: bool
    var closeErr: Option<E>

    ghost function Value(): Contents<T, E>
      reads this
    {
      Contents(items, done, closeErr)
    }

    constructor ()
      ensures Value() == Contents([], false, None)
    {
      items, done, closeErr := [], false, None;
    }

    method Append(item: T)
      modifies this`items
      ensures Value() == old(Value()).(items := old(items) + [item])
    {
      items := items + [item];
    }

    method Close(err: Option<E>)
      modifies this`done, this`closeErr
      ensures Value() == old(Value()).(done := true, closeErr := err)
    {
      done := true;
      closeErr := err;
    }

    /** One round of the loop in which a caller waits for a message, under the lock. */
    method Look(i: int, ctxErr: Option<E>) returns (fate: Option<Fate<T, E>>)
      ensures fate == Value().Decide(i, ctxErr)
      ensures 0 <= i < |items| ==> fate == Some(Message(items[i]))
      ensures -|items| <= i < 0 && done && closeErr.None? ==> fate == Some(Message(items[|items| + i]))
      ensures i >= |items| || i < -|items| || (i < 0 && !(done && closeErr.None?)) ==>
        fate == if done then Some(if closeErr.Some? then Stopped(closeErr.value) else Closed)
                else if ctxErr.Some? then Some(Interrupted(ctxErr.value)) else None
    {
      if i >= 0 {
        if i < |items| {
          return Some(Message(items[i]));
        }
      } else if done && closeErr.None? {
        var n := |items| + i;
        if n >= 0 {
          return Some(Message(items[n]));
        }
      }
      if done {
        if closeErr.Some? {
          return Some(Stopped(closeErr.value));
        }
        return Some(Closed);
      }
      if ctxErr.Some? {
        return Some(Interrupted(ctxErr.value));
      }
      return None;
    }
  }

  /** A caller that wants a message: about to look, asleep until a broadcast, or back. */
  datatype Phase<T, E> = Looking | Asleep | Back(fate: Fate<T, E>)

  /** `helper` says that the goroutine which broadcasts when the context ends has not done so yet. */
  datatype Waiter<T, E> = Waiter(index: int, phase: Phase<T, E>, ctxErr: Option<E>, helper: bool)

  datatype State<T, E> = State(contents: Contents<T, E>, waiters: seq<Waiter<T, E>>) {
    function Set(w: nat, waiter: Waiter<T, E>): State<T, E>
      requires w < |waiters|
    {
      this.(waiters := waiters[w := waiter])
    }

    /** Wakes every sleeping caller. */
    function Broadcast(): State<T, E> {
      this.(waiters := seq(|waiters|, k requires 0 <= k < |waiters| => Woken(waiters[k])))
    }
  }

  function Woken<T, E>(w: Waiter<T, E>): Waiter<T, E> {
    if w.phase.Asleep? then w.(phase := Looking) else w
  }

  /** Steps under the lock, and the end of a caller's context. The producer appends and then closes, once. */
  datatype Action<T, E> =
    | Produce(item: T)
    | End(err: Option<E>)
    | Call(index: int)
    | EndContext(w: nat, cause: E)
    | HelpAwake(w: nat)
    | TakeLook(w: nat)

  function Init<T, E>(): State<T, E> {
    State(Contents([], false, None), [])
  }

  predicate Enabled<T, E>(s: State<T, E>, a: Action<T, E>) {
    match a
    case Produce(_) => !s.contents.done
    case End(_) => !s.contents.done
    case Call(_) => true
    case EndContext(w, _) => w < |s.waiters| && s.waiters[w].ctxErr.None?
    case HelpAwake(w) => w < |s.waiters| && s.waiters[w].helper && s.waiters[w].ctxErr.Some?
    case TakeLook(w) => w < |s.waiters| && s.waiters[w].phase.Looking?
  }

  function Step<T, E>(s: State<T, E>, a: Action<T, E>): State<T, E>
    requires Enabled(s, a)
  {
    match a
    case Produce(item) => s.(contents := s.contents.(items := s.contents.items + [item])).Broadcast()
    case End(err) => s.(contents := s.contents.(done := true, closeErr := err)).Broadcast()
    case Call(index) => s.(waiters := s.waiters + [Waiter(index, Looking, None, true)])
    case EndContext(w, cause) => s.Set(w, s.waiters[w].(ctxErr := Some(cause)))
    case HelpAwake(w) => s.Set(w, s.waiters[w].(helper := false)).Broadcast()
    case TakeLook(w) =>
      var fate := s.contents.Decide(s.waiters[w].index, s.waiters[w].ctxErr);
      s.Set(w, s.waiters[w].(phase := if fate.Some? then Back(fate.value) else Asleep))
  }

  predicate Runs<T, E>(s: State<T, E>, actions: seq<Action<T, E>>)
    decreases |actions|
  {
    actions == [] || (Enabled(s, actions[0]) && Runs(Step(s, actions[0]), actions[1..]))
  }

  function Exec<T, E>(s: State<T, E>, actions: seq<Action<T, E>>): State<T, E>
    requires Runs(s, actions)
    decreases |actions|
  {
    if actions == [] then s else Exec(Step(s, actions[0]), actions[1..])
  }

  /** From the front the places are 0, 1 and so on, from the end -1, -2 and so on. */
  predicate InRange<T>(items: seq<T>, i: int) {
    -|items| <= i < |items|
  }

  /** Message `m` is at place `i`; places from the end exist once the stream has ended cleanly. */
  ghost predicate Has<T, E>(items: seq<T>, end: Option<Option<E>>, i: int, m: T) {
    InRange(items, i) && if i >= 0 then items[i] == m else end == Some(None) && items[|items| + i] == m
  }

  /** What a fate says is true of the stream as far as it has come. */
  ghost predicate Correct<T, E>(c: Contents<T, E>, i: int, fate: Fate<T, E>) {
    match fate
    case Message(m) => Has(c.items, c.Ending(), i, m)
    case Closed => c.Ending() == Some(None) && !InRange(c.items, i)
    case Stopped(reason) => c.Ending() == Some(Some(reason)) && !(i >= 0 && InRange(c.items, i))
    case Interrupted(_) => true
  }

  /** A sleeping caller has nothing to see yet, unless its helper is still to wake it. */
  ghost predicate Slumbers<T, E>(c: Contents<T, E>, w: Waiter<T, E>) {
    !c.done && (w.index >= 0 ==> !InRange(c.items, w.index)) && (w.ctxErr.Some? ==> w.helper)
  }

  ghost predicate Sound<T, E>(c: Contents<T, E>, w: Waiter<T, E>) {
    && (w.phase.Back? ==> Correct(c, w.index, w.phase.fate))
    && (w.phase.Asleep? ==> Slumbers(c, w))
    && (w.ctxErr.None? ==> w.helper)
    && (w.phase.Back? && w.phase.fate.Interrupted? ==> w.ctxErr == Some(w.phase.fate.cause))
  }

  ghost predicate Good<T, E>(s: State<T, E>) {
    && (forall w | 0 <= w < |s.waiters| :: Sound(s.contents, s.waiters[w]))
    && (!s.contents.done ==> s.contents.closeErr.None?)
  }

  /** Later contents of a stream: more messages until it is closed, nothing after. */
  ghost predicate Later<T, E>(c: Contents<T, E>, d: Contents<T, E>) {
    c.items <= d.items && (c.done ==> d == c)
  }

  lemma CorrectLater<T, E>(c: Contents<T, E>, d: Contents<T, E>, i: int, fate: Fate<T, E>)
    requires Correct(c, i, fate) && Later(c, d)
    ensures Correct(d, i, fate)
  {
  }

  lemma StepGood<T, E>(s: State<T, E>, a: Action<T, E>)
    requires Good(s) && Enabled(s, a)
    ensures Good(Step(s, a)) && Later(s.contents, Step(s, a).contents)
  {
    var s' := Step(s, a);
    forall w | 0 <= w < |s'.waiters| ensures Sound(s'.contents, s'.waiters[w]) {
      if w < |s.waiters| {
        assert Sound(s.contents, s.waiters[w]);
        if s.waiters[w].phase.Back? {
          CorrectLater(s.contents, s'.contents, s.waiters[w].index, s.waiters[w].phase.fate);
        }
      }
    }
  }

  /** A fate, once told, stays what it is, and stays true of the stream, whatever happens after. */
  lemma {:induction false} FatesAreFinal<T, E>(s: State<T, E>, actions: seq<Action<T, E>>, w: nat)
    requires Good(s) && Runs(s, actions)
    ensures Good(Exec(s, actions)) && Later(s.contents, Exec(s, actions).contents)
    ensures w < |s.waiters| && s.waiters[w].phase.Back? ==>
      w < |Exec(s, actions).waiters| && Exec(s, actions).waiters[w].phase == s.waiters[w].phase &&
      Exec(s, actions).waiters[w].index == s.waiters[w].index &&
      Correct(Exec(s, actions).contents, s.waiters[w].index, s.waiters[w].phase.fate)
    decreases |actions|
  {
    if actions != [] {
      StepGood(s, actions[0]);
      FatesAreFinal(Step(s, actions[0]), actions[1..], w);
    } else if w < |s.waiters| {
      assert Sound(s.contents, s.waiters[w]);
    }
  }

  /** In every reachable state, a caller is asleep only while the stream has nothing for it and its
      context has not ended, or has ended and is about to wake it. */
  lemma NoLostWakeUp<T, E>(actions: seq<Action<T, E>>, w: nat)
    requires Runs(Init(), actions)
    requires var s := Exec(Init(), actions); w < |s.waiters| && s.waiters[w].phase.Asleep?
    ensures var s := Exec(Init(), actions); var waiter := s.waiters[w];
      && !s.contents.done && (waiter.index >= 0 ==> waiter.index >= |s.contents.items|)
      && (waiter.ctxErr.Some? ==> Enabled(s, HelpAwake(w)) && Step(s, HelpAwake(w)).waiters[w].phase.Looking?)
  {
    FatesAreFinal(Init<T, E>(), actions, w);
    var s := Exec(Init(), actions);
    assert Sound(s.contents, s.waiters[w]);
  }

  /** In a run, a caller was told its fate by a look under the lock, after `k` steps. */
  lemma {:induction false} FateWasDecided<T, E>(s: State<T, E>, actions: seq<Action<T, E>>, w: nat) returns (k: nat)
    requires Runs(s, actions) && !(w < |s.waiters| && s.waiters[w].phase.Back?)
    requires var s' := Exec(s, actions); w < |s'.waiters| && s'.waiters[w].phase.Back?
    ensures k < |actions| && actions[k] == TakeLook(w) && Runs(s, actions[..k])
    ensures var at, end := Exec(s, actions[..k]), Exec(s, actions);
      && w < |at.waiters| && at.waiters[w].index == end.waiters[w].index
      && at.contents.Decide(at.waiters[w].index, at.waiters[w].ctxErr) == Some(end.waiters[w].phase.fate)
    decreases |actions|
  {
    var next := Step(s, actions[0]);
    if w < |next.waiters| && next.waiters[w].phase.Back? {
      k := 0;
      BackStays(next, actions[1..], w);
    } else {
      var j := FateWasDecided(next, actions[1..], w);
      k := j + 1;
      assert actions[..k][1..] == actions[1..][..j] && actions[..k][0] == actions[0];
    }
  }

  lemma {:induction false} BackStays<T, E>(s: State<T, E>, actions: seq<Action<T, E>>, w: nat)
    requires Runs(s, actions) && w < |s.waiters| && s.waiters[w].phase.Back?
    ensures w < |Exec(s, actions).waiters|
    ensures Exec(s, actions).waiters[w].phase == s.waiters[w].phase
    ensures Exec(s, actions).waiters[w].index == s.waiters[w].index
    decreases |actions|
  {
    if actions != [] {
      BackStays(Step(s, actions[0]), actions[1..], w);
    }
  }

  /** A caller is told that its context ended only when, at that look, the stream had neither the
      message nor an end, and its context had ended with that cause. */
  lemma InterruptedOnlyWhileOpen<T, E>(actions: seq<Action<T, E>>, w: nat) returns (k: nat)
    requires Runs(Init(), actions)
    requires var s := Exec(Init(), actions);
      w < |s.waiters| && s.waiters[w].phase.Back? && s.waiters[w].phase.fate.Interrupted?
    ensures k < |actions| && actions[k] == TakeLook(w) && Runs(Init(), actions[..k])
    ensures var at, end := Exec(Init(), actions[..k]), Exec(Init(), actions);
      && w < |at.waiters| && !at.contents.done
      && (end.waiters[w].index >= 0 ==> end.waiters[w].index >= |at.contents.items|)
      && at.waiters[w].ctxErr == Some(end.waiters[w].phase.fate.cause)
  {
    k := FateWasDecided(Init(), actions, w);
  }

  // What callers are told, in terms of what was done.

  /** The messages produced, in order. */
  function Produced<T, E>(actions: seq<Action<T, E>>): seq<T> {
    if actions == [] then []
    else (if actions[0].Produce? then [actions[0].item] else []) + Produced(actions[1..])
  }

  /** How the stream was ended, if it was. */
  function Ended<T, E>(actions: seq<Action<T, E>>): Option<Option<E>> {
    if actions == [] then None else if actions[0].End? then Some(actions[0].err) else Ended(actions[1..])
  }

  /** The indexes that were asked for, by caller. */
  function Asked<T, E>(actions: seq<Action<T, E>>): seq<int> {
    if actions == [] then []
    else (if actions[0].Call? then [actions[0].index] else []) + Asked(actions[1..])
  }

  /** Why the context of a caller was ended. */
  function Causes<T, E>(actions: seq<Action<T, E>>, w: nat): seq<E> {
    if actions == [] then []
    else (if actions[0].EndContext? && actions[0].w == w then [actions[0].cause] else []) + Causes(actions[1..], w)
  }

  function Indexes<T, E>(waiters: seq<Waiter<T, E>>): seq<int> {
    seq(|waiters|, w requires 0 <= w < |waiters| => waiters[w].index)
  }

  /** A buffer holds what has been produced, and nothing is produced once it is closed. */
  lemma {:induction false} HoldsProduced<T, E>(s: State<T, E>, actions: seq<Action<T, E>>)
    requires Runs(s, actions) && (!s.contents.done ==> s.contents.closeErr.None?)
    ensures var c := Exec(s, actions).contents;
      && c.items == s.contents.items + Produced(actions)
      && c.Ending() == if s.contents.done then s.contents.Ending() else Ended(actions)
    ensures s.contents.done ==> Produced(actions) == [] && Ended(actions).None?
    decreases |actions|
  {
    if actions != [] {
      HoldsProduced(Step(s, actions[0]), actions[1..]);
    }
  }

  lemma {:induction false} KeepsIndexes<T, E>(s: State<T, E>, actions: seq<Action<T, E>>)
    requires Runs(s, actions)
    ensures Indexes(Exec(s, actions).waiters) == Indexes(s.waiters) + Asked(actions)
    decreases |actions|
  {
    if actions != [] {
      KeepsIndexes(Step(s, actions[0]), actions[1..]);
      assert Indexes(Step(s, actions[0]).waiters) ==
        Indexes(s.waiters) + if actions[0].Call? then [actions[0].index] else [];
    }
  }

  lemma {:induction false} ContextWasEnded<T, E>(s: State<T, E>, actions: seq<Action<T, E>>, w: nat, cause: E)
    requires Runs(s, actions) && !(w < |s.waiters| && s.waiters[w].ctxErr.Some?)
    requires w < |Exec(s, actions).waiters| && Exec(s, actions).waiters[w].ctxErr == Some(cause)
    ensures cause in Causes(actions, w)
    decreases |actions|
  {
    var next := Step(s, actions[0]);
    if w < |next.waiters| && next.waiters[w].ctxErr.Some? {
      ContextStays(next, actions[1..], w);
    } else {
      ContextWasEnded(next, actions[1..], w, cause);
    }
  }

  lemma {:induction false} ContextStays<T, E>(s: State<T, E>, actions: seq<Action<T, E>>, w: nat)
    requires Runs(s, actions) && w < |s.waiters| && s.waiters[w].ctxErr.Some?
    ensures w < |Exec(s, actions).waiters| && Exec(s, actions).waiters[w].ctxErr == s.waiters[w].ctxErr
    decreases |actions|
  {
    if actions != [] {
      ContextStays(Step(s, actions[0]), actions[1..], w);
    }
  }

  /** What was produced before some step is the beginning of all that is, and all of it after the end. */
  lemma {:induction false} ProducedSoFar<T, E>(s: State<T, E>, actions: seq<Action<T, E>>, k: nat)
    requires Runs(s, actions) && k <= |actions| && !s.contents.done && s.contents.closeErr.None?
    ensures Produced(actions[..k]) <= Produced(actions)
    ensures Ended(actions[..k]).Some? ==>
      Produced(actions) == Produced(actions[..k]) && Ended(actions) == Ended(actions[..k])
    decreases k
  {
    if k > 0 {
      assert actions[..k][1..] == actions[1..][..k - 1];
      if actions[0].End? {
        HoldsProduced(Step(s, actions[0]), actions[1..]);
        ClosedProduces(Step(s, actions[0]), actions[1..], k - 1);
      } else {
        ProducedSoFar(Step(s, actions[0]), actions[1..], k - 1);
      }
    }
  }

  lemma {:induction false} ClosedProduces<T, E>(s: State<T, E>, actions: seq<Action<T, E>>, k: nat)
    requires Runs(s, actions) && k <= |actions| && s.contents.done
    ensures Produced(actions[..k]) == []
    decreases k
  {
    if k > 0 {
      assert actions[..k][1..] == actions[1..][..k - 1];
      ClosedProduces(Step(s, actions[0]), actions[1..], k - 1);
    }
  }

  /** What a caller is told when, before it looks, `items` have been produced, the stream has been
      ended with `end`, and its own context has ended for one of the `causes`. */
  ghost predicate Explained<T, E>(items: seq<T>, end: Option<Option<E>>, i: int, causes: seq<E>,
                                  fate: Fate<T, E>)
  {
    match fate
    case Message(m) =>
      (0 <= i < |items| && items[i] == m) || (-|items| <= i < 0 && end == Some(None) && items[|items| + i] == m)
    case Closed => end == Some(None) && !(-|items| <= i < |items|)
    case Stopped(reason) => end == Some(Some(reason)) && !(0 <= i < |items|)
    case Interrupted(cause) => end == None && !(0 <= i < |items|) && cause in causes
  }

  /** In every run, a caller is told of the message at its place among those produced, counted from
      the end once the stream has ended cleanly; of the end, of a stop, or of the end of its context
      only when that message was not there. What was produced at an end is all there ever is. */
  lemma ToldWhatWasProduced<T, E>(actions: seq<Action<T, E>>, w: nat) returns (k: nat)
    requires Runs(Init(), actions)
    requires var s := Exec(Init(), actions); w < |s.waiters| && s.waiters[w].phase.Back?
    ensures k < |actions| && actions[k] == TakeLook(w) && w < |Asked(actions)|
    ensures Explained(Produced(actions[..k]), Ended(actions[..k]), Asked(actions)[w],
                      Causes(actions[..k], w), Exec(Init(), actions).waiters[w].phase.fate)
    ensures Produced(actions[..k]) <= Produced(actions)
    ensures Ended(actions[..k]).Some? ==>
      Produced(actions) == Produced(actions[..k]) && Ended(actions) == Ended(actions[..k])
  {
    k := FateWasDecided(Init(), actions, w);
    ProducedSoFar(Init(), actions, k);
    AskedFor(actions, w);
    LookExplained(actions[..k], w);
  }

  lemma AskedFor<T, E>(actions: seq<Action<T, E>>, w: nat)
    requires Runs(Init(), actions) && w < |Exec(Init(), actions).waiters|
    ensures w < |Asked(actions)| && Exec(Init(), actions).waiters[w].index == Asked(actions)[w]
  {
    KeepsIndexes(Init(), actions);
    assert Exec(Init(), actions).waiters[w].index == Indexes(Exec(Init(), actions).waiters)[w];
  }

  /** What a caller that looks now is told, if it is. */
  lemma LookExplained<T, E>(actions: seq<Action<T, E>>, w: nat)
    requires Runs(Init(), actions) && w < |Exec(Init(), actions).waiters|
    ensures var at := Exec(Init(), actions);
      var fate := at.contents.Decide(at.waiters[w].index, at.waiters[w].ctxErr);
      fate.Some? ==>
        Explained(Produced(actions), Ended(actions), at.waiters[w].index, Causes(actions, w), fate.value)
  {
    HoldsProduced(Init(), actions);
    var at := Exec(Init(), actions);
    if at.waiters[w].ctxErr.Some? {
      ContextWasEnded(Init(), actions, w, at.waiters[w].ctxErr.value);
    }
    DecisionExplained(at.contents, at.waiters[w].index, at.waiters[w].ctxErr, Causes(actions, w));
  }

  lemma DecisionExplained<T, E>(c: Contents<T, E>, i: int, ctxErr: Option<E>, causes: seq<E>)
    requires ctxErr.Some? ==> ctxErr.value in causes
    ensures c.Decide(i, ctxErr).Some? ==>
      Explained(c.items, c.Ending(), i, causes, c.Decide(i, ctxErr).value)
  {
  }
}
