/** A bidirectional call: one goroutine evaluates and sends requests, another one receives.

    What the peer does, whether templates can be evaluated and whether sends succeed is up to the
    environment; every interleaving of the two goroutines is a run. */
module BidiStream {
  import Buf = StreamBuffer
  import opened MessageReference
  import opened Options

  type Request = nat
  type Response = nat

  datatype Failure = NotEvaluated | NotBuilt

  /** Where the goroutine that sends is; `i` is the index of the message. */
  datatype Main =
    | Evaluating(i: nat)
    | Building(i: nat)
    | Sending(i: nat)
    | ClosingSend
    | Awaiting                        // for the receiver's report
    | Collecting(report: Option<ReceiveError>) // about to take the messages
    | Aborting(why: Failure)          // about to take the messages so far
    | AskingDone(why: Failure)        // about to ask whether the stream has ended
    | AwaitingLate(why: Failure)      // for the report of a stream that has ended
    | Returned(failed: bool, complete: bool)

  datatype Receiver =
    | Receiving
    | Holding(message: Response)   // received, not appended yet
    | Reporting(report: Option<ReceiveError>) // the buffer is closed
    | Gone

  /** How receiving ended, and whether this side's context had ended by then. */
  datatype Ending = Ending(err: ReceiveError, cut: bool)

  datatype Result = Result(sent: seq<Request>, messages: seq<Response>, status: Option<ReceiveError>)

  datatype State = State(
    total: nat,                             // messages to send
    main: Main,
    sent: seq<Request>,                     // what the request accessor shows
    seen: seq<seq<Request>>,                // what each evaluated template saw of it
    receiver: Receiver,
    produced: seq<Response>,                // what the peer has produced
    buffer: Buf.Contents<Response, ReceiveError>,
    channel: seq<Option<ReceiveError>>, // from the receiver, with room for one
    taken: nat,                             // receives from the channel
    contextEnded: bool,
    ending: Option<Ending>,
    result: Result)

  datatype Action =
    | Evaluate(ok: bool)
    | Build(request: Option<Request>)
    | Send(err: Option<ReceiveError>)
    | CloseSend(err: Option<ReceiveError>)
    | TakeReport
    | Collect
    | SnapshotForAbort
    | AskDone
    | Receive(message: Response)
    | Append
    | ReceiveFails(end: ReceiveError)
    | SendReport
    | EndContext

  function Init(total: nat): State {
    State(total, Next(0, total), [], [], Receiving, [], Buf.Contents([], false, None), [], 0, false,
          None, Result([], [], None))
  }

  /** The loop over the messages goes on, or is over. */
  function Next(i: nat, total: nat): Main {
    if i < total then Evaluating(i) else ClosingSend
  }

  predicate Enabled(s: State, a: Action) {
    match a
    case Evaluate(_) => s.main.Evaluating?
    case Build(_) => s.main.Building?
    case Send(_) => s.main.Sending?
    case CloseSend(_) => s.main.ClosingSend?
    case TakeReport => (s.main.Awaiting? || s.main.AwaitingLate?) && s.channel != []
    case Collect => s.main.Collecting?
    case SnapshotForAbort => s.main.Aborting?
    case AskDone => s.main.AskingDone?
    case Receive(_) => s.receiver.Receiving?
    case Append => s.receiver.Holding?
    case ReceiveFails(_) => s.receiver.Receiving?
    case SendReport => s.receiver.Reporting? && |s.channel| < 1
    case EndContext => true
  }

  function Step(s: State, a: Action): State
    requires Enabled(s, a)
  {
    match a
    case Evaluate(ok) =>
      if ok then s.(main := Building(s.main.i), seen := s.seen + [s.sent])
      else s.(main := Aborting(NotEvaluated))
    case Build(request) =>
      if request.None? then s.(main := Aborting(NotBuilt))
      else
        // Recorded before it is sent, so that a failed attempt shows too.
        var sent := s.sent + [request.value];
        s.(main := Sending(s.main.i), sent := sent, result := s.result.(sent := sent))
    case Send(err) =>
      if err.None? then s.(main := Next(s.main.i + 1, s.total))
      else if err.value.Eof? then s.(main := ClosingSend)
      else s.(main := Returned(false, false), result := s.result.(messages := s.buffer.items, status := err))
    case CloseSend(err) =>
      if err.None? then s.(main := Awaiting)
      else s.(main := Returned(false, false), result := s.result.(messages := s.buffer.items, status := err))
    case TakeReport =>
      var s' := s.(channel := s.channel[1..], taken := s.taken + 1);
      if s.main.Awaiting? then s'.(main := Collecting(s.channel[0]))
      else s'.(main := Returned(true, false), result := s.result.(status := s.channel[0]))
    case Collect =>
      s.(main := Returned(false, true), result := s.result.(messages := s.buffer.items, status := s.main.report))
    case SnapshotForAbort =>
      s.(main := AskingDone(s.main.why), result := s.result.(messages := s.buffer.items))
    case AskDone => s.(main := if s.buffer.done then AwaitingLate(s.main.why) else Returned(true, false))
    case Receive(message) => s.(receiver := Holding(message), produced := s.produced + [message])
    case Append =>
      s.(receiver := Receiving, buffer := s.buffer.(items := s.buffer.items + [s.receiver.message]))
    case ReceiveFails(err) =>
      s.(receiver := Reporting(Report(err)), ending := Some(Ending(err, s.contextEnded)),
         buffer := s.buffer.(done := true, closeErr := End(s.contextEnded, err)))
    case SendReport => s.(receiver := Gone, channel := s.channel + [s.receiver.report])
    case EndContext => s.(contextEnded := true)
  }

  predicate Runs(s: State, actions: seq<Action>)
    decreases |actions|
  {
    actions == [] || (Enabled(s, actions[0]) && Runs(Step(s, actions[0]), actions[1..]))
  }

  function Exec(s: State, actions: seq<Action>): State
    requires Runs(s, actions)
    decreases |actions|
  {
    if actions == [] then s else Exec(Step(s, actions[0]), actions[1..])
  }

  /** The receiver, its buffer and its channel. */
  predicate ReceiverOk(s: State) {
    && s.produced == s.buffer.items + (if s.receiver.Holding? then [s.receiver.message] else [])
    && (s.buffer.done <==> s.receiver.Reporting? || s.receiver.Gone?)
    && |s.channel| + s.taken == (if s.receiver.Gone? then 1 else 0)
    && (s.buffer.done ==> s.ending.Some? && s.buffer.closeErr == End(s.ending.value.cut, s.ending.value.err))
    && (s.receiver.Reporting? ==> s.receiver.report == Report(s.ending.value.err))
    && (forall r <- s.channel :: s.ending.Some? && r == Report(s.ending.value.err))
  }

  /** What the receiver reports of an error. */
  function Report(err: ReceiveError): Option<ReceiveError> {
    if err.Eof? then None else Some(err)
  }

  /** The template of message `i` saw the requests before it. */
  predicate SawEarlier(seen: seq<Request>, sent: seq<Request>, i: nat) {
    i <= |sent| && seen == sent[..i]
  }

  lemma SawEarlierStays(seen: seq<Request>, sent: seq<Request>, i: nat, request: Request)
    requires SawEarlier(seen, sent, i)
    ensures SawEarlier(seen, sent + [request], i)
  {
    assert (sent + [request])[..i] == sent[..i];
  }

  /** The sender and what its templates saw. */
  predicate SenderOk(s: State) {
    && s.result.sent == s.sent
    && (forall i | 0 <= i < |s.seen| :: SawEarlier(s.seen[i], s.sent, i))
    && (s.main.Evaluating? ==> s.main.i == |s.sent| == |s.seen|)
    && (s.main.Building? ==> s.main.i == |s.sent| == |s.seen| - 1)
    && (s.main.Sending? ==> s.main.i + 1 == |s.sent| == |s.seen|)
  }

  /** The sender and the receiver's report. */
  predicate ReportOk(s: State) {
    && (s.taken > 0 ==> s.main.Collecting? || s.main.Returned?)
    && (s.main.Collecting? ==> s.taken == 1)
    && (s.main.AwaitingLate? ==> s.buffer.done)
    && s.result.messages <= s.buffer.items
    && (s.main.Collecting? ==> s.ending.Some? && s.main.report == Report(s.ending.value.err))
    && (s.main.Returned? && s.main.complete ==>
          s.receiver.Gone? && s.result.messages == s.buffer.items && s.ending.Some? &&
          s.result.status == Report(s.ending.value.err))
  }

  predicate Good(s: State) {
    ReceiverOk(s) && SenderOk(s) && ReportOk(s)
  }

  lemma StepReceiver(s: State, a: Action)
    requires Good(s) && Enabled(s, a)
    ensures ReceiverOk(Step(s, a))
  {
  }

  lemma StepSender(s: State, a: Action)
    requires Good(s) && Enabled(s, a)
    ensures SenderOk(Step(s, a))
  {
    var s' := Step(s, a);
    assert s.sent[..|s.sent|] == s.sent;
    forall i | 0 <= i < |s'.seen| ensures SawEarlier(s'.seen[i], s'.sent, i) {
      if i < |s.seen| && a.Build? && a.request.Some? {
        SawEarlierStays(s.seen[i], s.sent, i, a.request.value);
      }
    }
  }

  lemma StepReport(s: State, a: Action)
    requires Good(s) && Enabled(s, a)
    ensures ReportOk(Step(s, a))
  {
    if a.Append? {
      assert s.buffer.items <= Step(s, a).buffer.items;
    } else if a.TakeReport? {
      assert s.channel[0] in s.channel;
    }
  }

  lemma {:induction false} RunGood(s: State, actions: seq<Action>)
    requires Good(s) && Runs(s, actions)
    ensures Good(Exec(s, actions))
    decreases |actions|
  {
    if actions != [] {
      StepReceiver(s, actions[0]);
      StepSender(s, actions[0]);
      StepReport(s, actions[0]);
      RunGood(Step(s, actions[0]), actions[1..]);
    }
  }

  /** The template of message `i` sees the `i` requests before it, whatever the peer does meanwhile. */
  lemma TemplatesSeeEarlierRequests(total: nat, actions: seq<Action>, i: nat)
    requires Runs(Init(total), actions) && i < |Exec(Init(total), actions).seen|
    ensures var s := Exec(Init(total), actions);
      |s.seen[i]| == i && s.seen[i] <= s.result.sent
  {
    RunGood(Init(total), actions);
    var s := Exec(Init(total), actions);
    assert SawEarlier(s.seen[i], s.sent, i);
  }

  /** The messages that were received, in order. */
  function Received(actions: seq<Action>): seq<Response> {
    if actions == [] then []
    else (if actions[0].Receive? then [actions[0].message] else []) + Received(actions[1..])
  }

  /** How receiving ended, and whether this side's context had ended before, or did in these actions. */
  function EndingIn(actions: seq<Action>, cut: bool): Option<Ending> {
    if actions == [] then None
    else if actions[0].ReceiveFails? then Some(Ending(actions[0].end, cut))
    else EndingIn(actions[1..], cut || actions[0].EndContext?)
  }

  lemma {:induction false} RunReceives(s: State, actions: seq<Action>)
    requires Runs(s, actions) && (s.ending.Some? <==> s.receiver.Reporting? || s.receiver.Gone?)
    ensures var s' := Exec(s, actions);
      && s'.produced == s.produced + Received(actions)
      && s'.ending == if s.ending.Some? then s.ending else EndingIn(actions, s.contextEnded)
    decreases |actions|
  {
    if actions != [] {
      RunReceives(Step(s, actions[0]), actions[1..]);
    }
  }

  /** The messages of the result are the first ones the peer produced, and on the normal path all it
      produced until the stream ended. */
  lemma ResultHasMessages(total: nat, actions: seq<Action>)
    requires Runs(Init(total), actions)
    ensures var s := Exec(Init(total), actions);
      && s.result.messages <= s.produced
      && (s.main.Returned? && s.main.complete ==>
            s.buffer.done && s.result.messages == s.produced && s.ending.Some? &&
            s.result.status == if s.ending.value.err.Eof? then None else Some(s.ending.value.err))
    ensures var s := Exec(Init(total), actions);
      s.produced == Received(actions) && s.ending == EndingIn(actions, false)
  {
    RunGood(Init(total), actions);
    RunReceives(Init(total), actions);
  }

  /** The buffer is closed as ended if and only if the peer ended the stream: with its end, or with a
      status that came before this side's own context ended; otherwise with the error. */
  lemma CleanEndIsThePeers(total: nat, actions: seq<Action>)
    requires Runs(Init(total), actions) && Exec(Init(total), actions).buffer.done
    ensures var s, ending := Exec(Init(total), actions), EndingIn(actions, false);
      && ending.Some?
      && (s.buffer.closeErr.None? <==> ending.value.err.Eof? || (ending.value.err.Status? && !ending.value.cut))
      && (s.buffer.closeErr.Some? ==> s.buffer.closeErr.value == ending.value.err)
  {
    RunGood(Init(total), actions);
    RunReceives(Init(total), actions);
  }

  /** The report is taken at most once, the receiver never blocks on it, and a sender that aborts
      waits for one only if it is there or comes with the receiver's next step. */
  lemma AbortEnds(total: nat, actions: seq<Action>)
    requires Runs(Init(total), actions)
    ensures var s := Exec(Init(total), actions);
      && s.taken <= 1
      && (s.receiver.Reporting? ==> Enabled(s, SendReport))
      && (s.main.AwaitingLate? ==>
            Enabled(s, TakeReport) || (Enabled(s, SendReport) && Enabled(Step(s, SendReport), TakeReport)))
  {
    RunGood(Init(total), actions);
  }

  // What is sent.

  /** The requests that were built, in order. */
  function Built(actions: seq<Action>): seq<Request> {
    if actions == [] then []
    else
      (if actions[0].Build? && actions[0].request.Some? then [actions[0].request.value] else []) + Built(actions[1..])
  }

  lemma {:induction false} SendsBuilt(s: State, actions: seq<Action>)
    requires Runs(s, actions) && s.result.sent == s.sent
    ensures Exec(s, actions).sent == Exec(s, actions).result.sent == s.sent + Built(actions)
    decreases |actions|
  {
    if actions != [] {
      SendsBuilt(Step(s, actions[0]), actions[1..]);
    }
  }

  /** A send told that the peer has ended the stream. */
  const TOLD_END := Action.Send(Some(Eof))

  /** The loop over the messages, and what is left behind when it is over. */
  predicate InLoop(s: State, ended: bool) {
    match s.main
    case Evaluating(i) => i == |s.sent| == |s.seen| < s.total
    case Building(i) => i == |s.sent| == |s.seen| - 1 && i < s.total
    case Sending(i) => i + 1 == |s.sent| == |s.seen| <= s.total
    case Aborting(_) => |s.sent| < s.total
    case AskingDone(_) => |s.sent| < s.total
    case AwaitingLate(_) => |s.sent| < s.total
    case Returned(_, complete) => |s.sent| <= s.total && (complete ==> ended || |s.sent| == |s.seen| == s.total)
    case _ => |s.sent| <= s.total && (ended || |s.sent| == |s.seen| == s.total)
  }

  lemma StepLoop(s: State, a: Action, ended: bool)
    requires Enabled(s, a) && InLoop(s, ended)
    ensures InLoop(Step(s, a), ended || a == TOLD_END) && Step(s, a).total == s.total
  {
  }

  lemma {:induction false} RunLoop(s: State, actions: seq<Action>, ended: bool)
    requires Runs(s, actions) && InLoop(s, ended)
    ensures InLoop(Exec(s, actions), ended || TOLD_END in actions) && Exec(s, actions).total == s.total
    decreases |actions|
  {
    if actions != [] {
      StepLoop(s, actions[0], ended);
      RunLoop(Step(s, actions[0]), actions[1..], ended || actions[0] == TOLD_END);
      assert actions == [actions[0]] + actions[1..];
    }
  }

  lemma {:induction false} RunUpTo(s: State, actions: seq<Action>, k: nat)
    requires Runs(s, actions) && k < |actions|
    ensures Runs(s, actions[..k]) && Enabled(Exec(s, actions[..k]), actions[k])
    decreases k
  {
    if k > 0 {
      assert actions[..k][1..] == actions[1..][..k - 1];
      RunUpTo(Step(s, actions[0]), actions[1..], k - 1);
    }
  }

  /** The result has the requests that were built, in order, at most one for each message. The sender
      closes its side, and ends on the normal path, only after a template was evaluated and a request
      built and sent for every message, unless a send told that the peer had ended the stream. */
  lemma AllAreSent(total: nat, actions: seq<Action>)
    requires Runs(Init(total), actions)
    ensures var s := Exec(Init(total), actions);
      && s.result.sent == Built(actions) && |Built(actions)| <= total
      && (s.main.Returned? && s.main.complete && TOLD_END !in actions ==> |s.result.sent| == |s.seen| == total)
    ensures forall k | 0 <= k < |actions| && actions[k].CloseSend? && TOLD_END !in actions[..k] ::
      |Built(actions[..k])| == total
  {
    SendsBuilt(Init(total), actions);
    RunLoop(Init(total), actions, false);
    forall k | 0 <= k < |actions| && actions[k].CloseSend? && TOLD_END !in actions[..k]
      ensures |Built(actions[..k])| == total
    {
      RunUpTo(Init(total), actions, k);
      SendsBuilt(Init(total), actions[..k]);
      RunLoop(Init(total), actions[..k], false);
    }
  }

  /** An action by which the sender fails or is told of an end. */
  predicate Fails(a: Action) {
    || (a.Evaluate? && !a.ok) || (a.Build? && a.request.None?)
    || (a.Send? && a.err.Some?) || (a.CloseSend? && a.err.Some?)
  }

  /** A sender that nothing fails for ends on the normal path. */
  lemma {:induction false} RunWell(s: State, actions: seq<Action>)
    requires Runs(s, actions) && forall a <- actions :: !Fails(a)
    requires !(s.main.Aborting? || s.main.AskingDone? || s.main.AwaitingLate?)
    requires s.main.Returned? ==> !s.main.failed && s.main.complete
    ensures Exec(s, actions).main.Returned? ==> !Exec(s, actions).main.failed && Exec(s, actions).main.complete
    decreases |actions|
  {
    if actions != [] {
      assert actions[0] in actions;
      RunWell(Step(s, actions[0]), actions[1..]);
    }
  }

  /** When nothing fails, a call that has returned has sent a request for every message, in order, and
      has all messages of the peer. */
  lemma AllAreExchanged(total: nat, actions: seq<Action>)
    requires Runs(Init(total), actions) && Exec(Init(total), actions).main.Returned?
    requires forall a <- actions :: !Fails(a)
    ensures var s := Exec(Init(total), actions);
      && !s.main.failed && s.main.complete
      && s.result.sent == Built(actions) && |s.result.sent| == total && s.result.messages == Received(actions)
  {
    RunWell(Init(total), actions);
    AllAreSent(total, actions);
    ResultHasMessages(total, actions);
  }

  // What is left behind otherwise.

  /** The messages so far have been taken, and the call is to return short of the normal path. */
  predicate CutShort(m: Main) {
    m.AskingDone? || m.AwaitingLate? || (m.Returned? && !m.complete)
  }

  lemma {:induction false} CutShortStays(s: State, actions: seq<Action>)
    requires Runs(s, actions) && CutShort(s.main)
    ensures var s' := Exec(s, actions);
      && CutShort(s'.main) && s'.result.messages == s.result.messages
      && (s.main.Returned? ==> s'.main == s.main && s'.result.status == s.result.status)
      && (!s.main.Returned? && s'.main.Returned? ==> s'.main.failed)
    decreases |actions|
  {
    if actions != [] {
      CutShortStays(Step(s, actions[0]), actions[1..]);
    }
  }

  /** A call that returns short of the normal path has, as its messages, those that had come when it
      gave up: after a template or a request that failed, which is its failure; or after a send that
      failed, or the end of sending, whose error is its status. */
  lemma {:induction false} PartialResult(s: State, actions: seq<Action>) returns (k: nat)
    requires Runs(s, actions) && !CutShort(s.main)
    requires Exec(s, actions).main.Returned? && !Exec(s, actions).main.complete
    ensures k < |actions| && Runs(s, actions[..k])
    ensures var at, a, end := Exec(s, actions[..k]), actions[k], Exec(s, actions);
      && end.result.messages == at.buffer.items
      && (end.main.failed ==> a.SnapshotForAbort?)
      && (!end.main.failed ==> (a.Send? || a.CloseSend?) && a.err.Some? && end.result.status == a.err)
    decreases |actions|
  {
    var next := Step(s, actions[0]);
    if CutShort(next.main) {
      k := 0;
      CutShortStays(next, actions[1..]);
    } else {
      var j := PartialResult(next, actions[1..]);
      k := j + 1;
      assert actions[..k][1..] == actions[1..][..j] && actions[..k][0] == actions[0];
    }
  }
}
