/** The host side of a WASM plugin: concurrent calls, the guest that serves them, and shutdown.

    A call holds a lock while it sends its request over a buffered channel and waits for the answer
    on an unbuffered one. The guest runs in a goroutine of its own and enters host functions to take
    a request and to deliver an answer; between requests it can poll, at an interval that it sends
    with its answers. */
module WasmHost {
  import opened Options

  /** What the guest is told when no request came in within its polling interval. */
  const NO_REQUEST := 0xFFFF_FFFF

  /** `of` is the call whose request the answer is to. */
  datatype Answer = Answer(of: nat, interval: nat)

  datatype Phase =
    | AwaitLock
    | Checking                                         // the length, and whether the guest is gone
    | Sending
    | AwaitAnswer
    | Swapping(answer: Answer, clean: bool)            // about to decode the answer and store the interval
    | Posting(answer: Answer, clean: bool)             // about to wake the guest
    | Returned(result: Option<Answer>, clean: bool)    // `clean`: by an answer from before cancellation

  /** Requests are JSON and a newline, so never empty. */
  datatype Call = Call(length: nat, phase: Phase)

  datatype Guest =
    | Outside                             // runs its own code
    | Loading                             // in read_length: about to load the interval
    | Waiting(interval: nat)              // in read_length: waits; zero means without a timer
    | Told(length: nat)                   // back from read_length
    | Serving(of: nat)                    // has read a request
    | Writing(answer: Answer)             // in write
    | Gone

  datatype Closer = Open | Cancelled | RuntimeClosed | AwaitCleanup | Closed

  datatype Holder = Nobody | ByCall(c: nat)

  datatype State = State(
    calls: seq<Call>,
    lock: Holder,
    requests: seq<nat>,   // the buffered channel: calls whose requests wait
    current: nat,         // the request slot shared by read_length and read
    interval: nat,        // the stored polling interval
    token: bool,          // says that the interval has changed
    guest: Guest,
    closer: Closer)
  {
    predicate Canceled() {
      !closer.Open?
    }

    function Move(c: nat, phase: Phase): State
      requires c < |calls|
    {
      this.(calls := calls[c := calls[c].(phase := phase)])
    }

    predicate Holds(c: nat, phase: Phase) {
      c < |calls| && calls[c].phase == phase && lock == ByCall(c)
    }
  }

  function Init(): State {
    State([], Nobody, [], 0, 0, false, Outside, Open)
  }

  datatype Action =
    | NewCall(length: nat)
    | Lock(c: nat)
    | Check(c: nat)
    | Enqueue(c: nat)
    | SendFails(c: nat)
    | Receive(c: nat)
    | ReadFails(c: nat)
    | DecodeFails(c: nat)
    | Swap(c: nat)
    | Post(c: nat)
    | EnterReadLength
    | Load
    | TakeRequest
    | SeeCancel
    | Timeout
    | TakeToken
    | Read
    | Write(interval: nat)
    | StrayWrite(answer: Answer)   // of a guest that goes on after it was told of cancellation
    | WriteCanceled
    | Exit
    | Cancel
    | CloseRuntime
    | SeeDone
    | CleanUp

  /** Host functions are entered, and requests served, until the runtime is closed. */
  predicate Alive(s: State) {
    s.closer.Open? || s.closer.Cancelled?
  }

  predicate Enabled(s: State, a: Action) {
    match a
    case NewCall(length) => length > 0
    case Lock(c) => c < |s.calls| && s.calls[c].phase == AwaitLock && s.lock.Nobody?
    case Check(c) => s.Holds(c, Checking)
    case Enqueue(c) => s.Holds(c, Sending) && |s.requests| < 1
    case SendFails(c) => s.Holds(c, Sending) && s.guest.Gone?
    case Receive(c) => s.Holds(c, AwaitAnswer) && s.guest.Writing?
    case ReadFails(c) => s.Holds(c, AwaitAnswer) && s.guest.Gone?
    case DecodeFails(c) => c < |s.calls| && s.calls[c].phase.Swapping?
    case Swap(c) => c < |s.calls| && s.calls[c].phase.Swapping?
    case Post(c) => c < |s.calls| && s.calls[c].phase.Posting?
    case EnterReadLength => s.guest.Outside? && Alive(s)
    case Load => s.guest.Loading?
    case TakeRequest => s.guest.Waiting? && s.requests != []
    case SeeCancel => s.guest.Waiting? && s.Canceled()
    case Timeout => s.guest.Waiting? && s.guest.interval > 0
    case TakeToken => s.guest.Waiting? && s.token
    case Read => s.guest.Told? && 0 < s.guest.length < NO_REQUEST && Alive(s)
    case Write(_) => s.guest.Serving? && Alive(s)
    case StrayWrite(_) => s.guest.Outside? && s.closer.Cancelled?
    case WriteCanceled => s.guest.Writing? && s.Canceled()
    case Exit => s.guest.Outside? || s.guest.Told? || s.guest.Serving?
    case Cancel => s.closer.Open?
    case CloseRuntime => s.closer.Cancelled?
    case SeeDone => s.closer.RuntimeClosed? && s.guest.Gone?
    case CleanUp => s.closer.AwaitCleanup? && s.lock.Nobody?
  }

  /** A call is over and lets go of the lock. */
  function Finish(s: State, c: nat, answer: Option<Answer>, clean: bool): State
    requires c < |s.calls|
  {
    s.Move(c, Returned(answer, clean)).(lock := Nobody)
  }

  function StepCall(s: State, a: Action): State
    requires Enabled(s, a)
    requires OfCall(a)
  {
    match a
    case NewCall(length) => s.(calls := s.calls + [Call(length, AwaitLock)])
    case Lock(c) => s.Move(c, Checking).(lock := ByCall(c))
    case Check(c) =>
      if s.calls[c].length >= NO_REQUEST || s.guest.Gone? then Finish(s, c, None, false) else s.Move(c, Sending)
    case Enqueue(c) => s.Move(c, AwaitAnswer).(requests := s.requests + [c])
    case SendFails(c) => Finish(s, c, None, false)
    case Receive(c) => s.Move(c, Swapping(s.guest.answer, !s.Canceled())).(guest := Outside)
    case ReadFails(c) => Finish(s, c, None, false)
    case DecodeFails(c) => Finish(s, c, None, false)
    case Swap(c) =>
      var p := s.calls[c].phase;
      if s.interval == p.answer.interval then Finish(s, c, Some(p.answer), p.clean)
      else s.Move(c, Posting(p.answer, p.clean)).(interval := p.answer.interval)
    case Post(c) =>
      var p := s.calls[c].phase;
      Finish(s.(token := true), c, Some(p.answer), p.clean)
  }

  function StepGuest(s: State, a: Action): State
    requires Enabled(s, a)
  {
    match a
    case EnterReadLength => s.(guest := Loading)
    case Load => s.(guest := Waiting(s.interval))
    case TakeRequest =>
      var c := s.requests[0];
      s.(requests := s.requests[1..], current := c,
         guest := Told(if c < |s.calls| then s.calls[c].length else 0))
    case SeeCancel => s.(guest := Outside) // told a length of zero
    case Timeout => s.(guest := Outside)   // told that there is no request
    case TakeToken => s.(token := false, guest := Loading)
    case Read => s.(guest := Serving(s.current))
    case Write(interval) => s.(guest := Writing(Answer(s.guest.of, interval)))
    case StrayWrite(answer) => s.(guest := Writing(answer))
    case WriteCanceled => s.(guest := Outside)
    case Exit => s.(guest := Gone)
    case Cancel => s.(closer := Cancelled)
    case CloseRuntime => s.(closer := RuntimeClosed)
    case SeeDone => s.(closer := AwaitCleanup)
    case CleanUp => s.(closer := Closed) // the pipes are read and closed under the lock
    case NewCall(_) => s
    case Lock(_) => s
    case Check(_) => s
    case Enqueue(_) => s
    case SendFails(_) => s
    case Receive(_) => s
    case ReadFails(_) => s
    case DecodeFails(_) => s
    case Swap(_) => s
    case Post(_) => s
  }

  predicate OfCall(a: Action) {
    || a.NewCall? || a.Lock? || a.Check? || a.Enqueue? || a.SendFails? || a.Receive?
    || a.ReadFails? || a.DecodeFails? || a.Swap? || a.Post?
  }

  function Step(s: State, a: Action): State
    requires Enabled(s, a)
  {
    if OfCall(a) then StepCall(s, a) else StepGuest(s, a)
  }

  predicate Runs(s: State, actions: seq<Action>)
    decreases |actions|
  {
    actions == [] || (Enabled(s, actions[0]) && Runs(Step(s, actions[0]), actions[1..]))
  }

  function Exec(s: State, actions: seq<Action>): State
    requires Runs(s, actions)
    decreases |actions|
  {
    if actions == [] then s else Exec(Step(s, actions[0]), actions[1..])
  }
}
