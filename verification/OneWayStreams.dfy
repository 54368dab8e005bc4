/** Calls that stream in one direction. */
module OneWayStreams {
  import opened MessageReference
  import opened Options

  datatype Received<M> = Got(message: M) | Failed(err: ReceiveError)

  datatype Opened = Stream | Refused(err: ReceiveError)

  /** `error` is an error of the client rather than an outcome of the call. */
  datatype Outcome<M> = Outcome(messages: seq<M>, status: Option<ReceiveError>, error: bool)

  /** A status is an outcome of the call; any other failure to open the stream is an error. */
  function OpenFailure<M>(err: ReceiveError): Outcome<M> {
    if err.Status? then Outcome([], Some(err), false) else Outcome([], None, true)
  }

  /** Receives until the first failure, given what each receive returns; keeps what came before it. */
  method RunServerStream<M>(open: Opened, receives: seq<Received<M>>) returns (o: Outcome<M>)
    requires exists k | 0 <= k < |receives| :: receives[k].Failed?
    ensures open.Refused? ==> o == OpenFailure(open.err)
    ensures open.Stream? ==>
      |o.messages| < |receives| && receives[|o.messages|].Failed? && !o.error
    ensures open.Stream? ==>
      forall k | 0 <= k < |o.messages| :: receives[k] == Got(o.messages[k])
    ensures open.Stream? ==>
      o.status == if receives[|o.messages|].err.Eof? then None else Some(receives[|o.messages|].err)
  {
    if open.Refused? {
      return OpenFailure(open.err);
    }
    var messages := [];
    while receives[|messages|].Got?
      invariant |messages| < |receives|
      invariant forall k | 0 <= k < |messages| :: receives[k] == Got(messages[k])
      decreases |receives| - |messages|
    {
      assert exists k | |messages| < k < |receives| :: receives[k].Failed?;
      messages := messages + [receives[|messages|].message];
    }
    var err := receives[|messages|].err;
    o := Outcome(messages, if err.Eof? then None else Some(err), false);
  }

  /** Sends until the first failure, given what each send returns. A send reports the end of the
      stream when the server has ended it; the reason then comes with the response. */
  method RunClientStream<M>(open: Opened, sends: seq<Option<ReceiveError>>, response: Received<M>)
    returns (o: Outcome<M>, sent: nat)
    ensures open.Refused? ==> o == OpenFailure(open.err) && sent == 0
    ensures open.Stream? ==>
      sent <= |sends| && (forall k | 0 <= k < sent :: sends[k].None?) && (sent < |sends| ==> sends[sent].Some?)
    ensures open.Stream? ==>
      o == if sent < |sends| && !sends[sent].value.Eof? then Outcome([], sends[sent], false)
           else if response.Failed? then Outcome([], Some(response.err), false)
           else Outcome([response.message], None, false)
  {
    sent := 0;
    if open.Refused? {
      o := OpenFailure(open.err);
      return;
    }
    while sent < |sends| && sends[sent].None?
      invariant sent <= |sends| && forall k | 0 <= k < sent :: sends[k].None?
    {
      sent := sent + 1;
    }
    if sent < |sends| && !sends[sent].value.Eof? {
      o := Outcome([], sends[sent], false);
    } else if response.Failed? {
      o := Outcome([], Some(response.err), false);
    } else {
      o := Outcome([response.message], None, false);
    }
  }
}
