# Verification of scenarigo's core

A Dafny model of the parts of scenarigo that carry state or induction, with proofs about every
input, every run and every interleaving.

- **Test scheduler** (`Context`, `Semaphore`, `Scheduler*`). Tests run in goroutines of their own that
  meet at `done` and `barrier` channels and at a semaphore that hands slots over. A run is any
  sequence of atomic steps of an arbitrary tree of tests whose bodies run subtests, turn parallel,
  register teardowns and cleanups, and end, as they like. An invariant that ties each test to the one
  that ran it gives slot accounting, the order of events, freedom from deadlock and termination.
- **Failures, retries, steps** (`Failure`, `FailureSteps`, `Scenario`). Tests are objects whose flags are
  updated in place; failures reported at the same time are steps of several goroutines; the step loop of
  a scenario runs each step under its retry policy and returns what could be seen of the run.
- **Template front end** (`Tokens`, `Ast`, `Scanner*`, `Parser*`, `FrontEnd`). The scanner and the parser
  are objects with their fields and pushback; each is proved against a specification function, and
  about these functions the round trips are proved. The token listing of a tree stands for a printer,
  and a flat reference grammar of rows of operators says how they group.
- **Template evaluation** (`Arithmetic`, `ExactArithmetic`, `Values`, `Evaluator*`, `Machine*`, `Lazy*`).
  Recursive evaluation with absent, failed and suspended outcomes, and its laws operator by operator; the
  same evaluation as a process
  with an explicit stack that stops where it reads `$` and is resumed; the object that calls it; and
  calls of one lazy value at the same time, as steps over the channels they share.
- **Streams** (`StreamBuffer`, `MessageReference`, `BidiStream`, `OneWayStreams`). The blocking buffer of
  streamed messages and its waiters, references to messages from templates, and the goroutines of a
  bidirectional call.
- **WASM host** (`WasmHost*`). Concurrent calls, the guest and the shutdown, as steps over the request
  and response channels, the polling interval and its token.
- **Codec and assertions** (`Codec`, `Assertion`). A cyclic graph of reporters flattened to a map by
  address and rebuilt; nested expectations compiled to path checks.
- **Baggage and ordered map** (`Baggage`, `OrderedMap.dfy`). The bounded merge of baggage members
  (W3C Baggage, section 3, Baggage HTTP Header Format, "Limits") and the map with an index.

`dafny verify dfyconfig.toml` checks the whole project.

What does not hold, and when it does:

- Dividing the smallest int by -1 wraps around (`Arithmetic.DivWraps`); every other quotient is exact
  (`Arithmetic.DivExact`).
- Unsigned multiplication by a zero right operand is an error (`Arithmetic.UintMulExact`): the bound is
  computed by a division that panics, and evaluation turns the panic into an error.
- The scanner reports a wrong position for numbers with digits outside ASCII
  (`ScannerLemmas.NumberPositionExact`).
- Parallel subtests below a teardown of a parallel test break the limit on tests that run at once
  (`SchedulerOversubscription.Oversubscribed`); the counter of a run is exact all the time if and only if
  there are none (`SchedulerExact.CounterExact`).
- The check at the start of `write` does not keep a request from being sent after the guest is gone
  (`WasmHostProofs.SentAfterDone`): a call may still send one if and only if it has passed the check and
  the channel has room (`WasmHostProofs.SentAfterDoneWhen`).
- An `include` step that times out fails, but binds its values nevertheless and is recorded as passed, when
  the included scenario ends without a failure: the step goes on with the context that comes from there
  (`Scenario.TimedOutIncludeBinds`). Any other attempt whose body failed binds nothing
  (`Scenario.FailedBodyStops`).
- Calls of one lazy value at the same time share a variable for the channel of their execution. A call looks
  at its own channel if and only if no other call has begun since it did (`LazyCalls.LooksAtOwn`). Otherwise
  it returns the result for another value or waits for ever (`LazyCalls.TwoCalls`), and some call does the
  latter in the end (`LazyCalls.AllReturnWhenOwn`).
- A subtest of a retried test comes back from the codec with the retried test as its parent in place of the
  attempt that ran it, if and only if both list it and the graph is not rebuilt from the attempt or below
  (`Codec.UnchangedWhen`).
- A step with `continueOnError` still fails its scenario when its condition is invalid, while the
  steps after it go on (`Scenario.FailsAndGoesOn`); `Scenario.StepTells` says exactly when.

Where the code and its documentation differ, the model follows the code: the grammar in the
repository's `README.md` (lines 1475-1492) lets a selector, index or call follow any expression, while
the parser accepts them after an identifier only; it does not mention `defined`; and the case for the
`CALL` token cannot be reached, since that token has the lowest precedence.

## Model

| member | source | states |
|---|---|---|
| `ParserRoundTrip.TemplateRoundTrip` | template/parser/parser.go:31-52 | Parsing the tokens of a tree that respects the precedence table (left operand at least as tight, right operand strictly tighter, ternaries nesting to the right, implicit concatenation at level 5) gives back that tree, without errors and with nothing left over |
| `ParserRoundTrip.ParseOfListing` | template/parser/parser.go:52-135 | The same for a tree in any context: the binary-expression loop stops exactly in front of the first token that cannot extend the tree, and leaves everything from there on |
| `ParserRoundTrip.ParseGoesOn` | template/parser/parser.go:52-77 | The stopping condition is tight: whenever it is not met, the parser consumes the next token, one that the right edge of the tree absorbs included |
| `ParserRoundTrip.ListingOfParse` | template/parser/parser.go:31-261 | Conversely, a parse of any tokens that reports no error has consumed exactly the tokens of the tree it returns, left arrows included |
| `ParserRoundTrip.ListingIsInjective` | template/token/token.go:148-165 | The precedence table makes the grammar unambiguous: different canonical trees never have the same tokens |
| `ParserGrouping.ParseOfWritten` | template/parser/parser.go:52-135 | How operators group, told without a precedence table: a row of operands of any length is parsed to the tree that the last operator of its loosest group splits, both sides being rows again; the groups, from the loosest, are disjunction with `??`, then conjunction, then comparisons, then `+` `-` and concatenation, then `*` `/` `%`; signs and negations are tighter than all of them, and selectors, indexes and calls tighter still |
| `ParserGrouping.TwoOperators` | template/token/token.go:148-165 | In `x o1 y o2 z` the right operator takes `y` exactly when its group is the tighter one, otherwise the left one does |
| `ParserGrouping.ChoiceIsLoosest` | template/parser/parser.go:118-130 | `? :` is looser than every operator and nests to the right: its condition is the whole row in front, its last branch all that follows |
| `Parser.Parser.Parse` | template/parser/parser.go:31-42 | The parser object, whose fields are overwritten as it goes, returns the tree, the rest and the errors of the specification function; empty input is the empty string literal |
| `Parser.Parser.ParseBinaryExpr` | template/parser/parser.go:52-135 | The precedence-climbing loop meets its specification, whatever the current token, literal and errors are |
| `Parser.Parser.ParseUnaryExpr` | template/parser/parser.go:149-232 | So do operands, with their chains of selectors, indexes and calls |
| `Parser.Parser.ParseArgs` | template/parser/parser.go:250-261 | So do argument lists |
| `Scanner.Scanner.Read` | template/parser/scanner.go:37-50 | Reading keeps the pushback buffer and the unread input equal to the text from `pos` on: no character is lost or repeated |
| `Scanner.Scanner.Unread` | template/parser/scanner.go:52-58 | Giving back the character just read keeps that too, provided that the buffer is empty or holds the same character |
| `Scanner.Scanner.ScanRawString` | template/parser/scanner.go:69-106 | Text outside parameters scans to its longest prefix before an unescaped pair of braces, with the escapes of backslash and brace resolved |
| `Scanner.Scanner.ScanToken` | template/parser/scanner.go:234-335 | One token inside a parameter is the one the lexical specification puts at the front of the remaining text, and the reading mode ends with the closing braces |
| `Scanner.Scanner.Scan` | template/parser/scanner.go:195-232 | The mode switches between text, parameters and the text after a left arrow; whatever the mode, no character is lost |
| `ScannerLemmas.EscapeRoundTrip` | template/parser/scanner.go:69-106 | A string whose backslashes and opening braces are each escaped by a backslash scans back to itself, at the end of the text or in front of a parameter |
| `ScannerLemmas.RawTextFaithful` | template/parser/scanner.go:69-106 | Escaping what was scanned and scanning it again changes nothing, and the scanner never takes more text than escaping would write |
| `ScannerLemmas.LexTokenSpelling` | template/parser/scanner.go:108-335 | Except for an unterminated string, the text a token takes up is exactly the spelling of that token |
| `ScannerLemmas.LexSpelling` | template/parser/scanner.go:234-335 | A token that can be written, followed by a space, is scanned back as that token |
| `ScannerLemmas.OperatorTokens` | template/parser/scanner.go:234-335 | The operators as they are written, one or two characters each |
| `ScannerLemmas.NumbersMean` | template/parser/scanner.go:127-162 | Digits are an int without a point, a float with one, and illegal with more, with one at the end, or with a zero in front of another digit |
| `ScannerLemmas.AsciiNumbers` | template/parser/scanner.go:127-162 | Digits and points that begin with a digit are read as a whole |
| `ScannerLemmas.AsciiWords` | template/parser/scanner.go:164-193 | A word of letters, digits, hyphens and underscores is read as a whole, as a literal, as `defined`, or as an identifier |
| `ScannerLemmas.NumberPositionExact` | template/parser/scanner.go:127-162 | The position reported for a number is where it begins if and only if the number is written in ASCII, since the scanner goes back by the length in bytes |
| `ScannerLemmas.NonAsciiNumberPosition` | template/parser/scanner.go:127-162 | A number for which it is not: with a digit outside ASCII the reported position is wrong |
| `FrontEnd.ScanAll` | template/parser/scanner.go:195-335 | The tokens that the scanner object delivers, one call after the other, are those that the specification reads off the text, for texts without left arrows |
| `FrontEnd.SpacesSkipped` | template/parser/scanner.go:60-67 | Inside a parameter, spaces and line ends in front of a token are skipped, and nothing else is |
| `FrontEnd.LexWritten` | template/parser/scanner.go:195-335 | A whole sequence of tokens, text and parameters alternating, is scanned back from the text written for it |
| `FrontEnd.TextRoundTrip` | template/parser/parser.go:31-232 | From text to tree: a canonical tree written out as template text is scanned and parsed back to that tree |
| `Arithmetic.NegExact` | template/val/int.go:84-91 | Negation gives the exact result or an error, the latter exactly when the result leaves the 64-bit range |
| `Arithmetic.AddExact` | template/val/int.go:117-128 | The same for addition |
| `Arithmetic.SubExact` | template/val/int.go:130-141 | The same for subtraction |
| `Arithmetic.MulExact` | template/val/int.go:143-157 | The same for multiplication, whose guards compare with truncated quotients |
| `Arithmetic.DivExact` | template/val/int.go:159-170 | Division by zero is an error, and any other quotient is exact, if and only if it is not the smallest int divided by -1 |
| `Arithmetic.DivWraps` | template/val/int.go:159-170 | That quotient is the smallest int itself: it wraps around without an error |
| `Arithmetic.ModExact` | template/val/int.go:172-182 | The remainder is always exact, and an error for a zero divisor only |
| `Arithmetic.QuotientRemainder` | template/val/int.go:159-182 | Quotient and remainder truncate towards zero: they add up to the dividend, and the remainder has the dividend's sign and is smaller than the divisor |
| `Arithmetic.UintAddExact` | template/val/uint.go:108-119 | Unsigned addition is exact or an error |
| `Arithmetic.UintSubExact` | template/val/uint.go:121-132 | So is unsigned subtraction |
| `Arithmetic.UintMulExact` | template/val/uint.go:134-145 | So is unsigned multiplication, but for a zero right operand, which is an error although the product fits |
| `ExactArithmetic.ExactOrFailed` | template/template.go:180-343 | An expression over int literals and variables with unary minus, `+`, `-`, `*` evaluates to its exact mathematical value if and only if it and all its parts fit in 64 bits, and to an error otherwise, literals of any length included |
| `ExactArithmetic.UintExactOrFailed` | template/template.go:180-343 | An expression over uint variables with `+`, `-`, `*` does so if and only if, besides, no product in it has a zero on the right |
| `Values.DecimalRoundTrip` | template/val/string.go:36-40 | The text that concatenation makes of a non-negative int is a literal with that value |
| `MachineProofs.StartsLikeEval` | template/lazy.go:17-109 | Without an actual value, the evaluating goroutine blocks exactly when evaluation needs `$`, and otherwise ends with the plain value |
| `MachineProofs.Resumes` | template/lazy.go:70-97 | Suspending loses nothing: going on from the point where it blocked, once the value has come, ends like an execution that had the value from the start |
| `MachineProofs.ResumesLikeEval` | template/lazy.go:17-42 | Resumed with a value, the blocked evaluation ends as evaluation from scratch with that value for every `$` |
| `MachineProofs.DollarUnread` | template/lazy.go:17-24 | An expression that does not read `$` has the same value whatever `$` is |
| `MachineProofs.DoGives` | template/template.go:69-106 | The step-by-step process computes what recursive evaluation does, for every kind of expression and whatever is left to do afterwards |
| `MachineProofs.FailureSurfaces` | template/template.go:345-370 | A failure, unlike an absence, is absorbed by no part of an expression: the whole evaluation fails |
| `Lazy.Execution.Set` | template/lazy.go:99-109 | An actual value can be set once |
| `Lazy.Deferred.Call` | template/lazy.go:25-41 | Every call of a lazy value, the first and all later ones, returns what evaluation from scratch returns with `$` bound to its argument |
| `Lazy.Execute` | template/lazy.go:17-42 | A template that does not read `$` gives its plain value; any other one gives a function |
| `LazyCalls.LooksAtOwn` | template/lazy.go:25-40 | With calls going on at the same time, a call waits for the channel of its own execution if and only if no other call has begun between its beginning and its look at the shared variable |
| `LazyCalls.ReturnsResultOfChannel` | template/lazy.go:25-40 | In every reachable state, a call that has returned gave the result for the value of the call whose channel it looked at, which is itself or a later one |
| `LazyCalls.AllReturnedOwn` | template/lazy.go:25-40 | Whenever all calls have returned, each of them gave the result for its own value: a wrong result never comes without a call that is left waiting |
| `LazyCalls.AllReturnWhenOwn` | template/lazy.go:25-40 | When nothing can go on any more, all calls have returned if and only if each of them looked at its own channel |
| `LazyCalls.WaitsForEver` | template/lazy.go:38 | A call at a channel whose result another one has received never returns, whatever happens |
| `LazyCalls.TwoCalls` | template/lazy.go:25-40 | Two calls that begin before either looks: the first returns the result for the value of the second, and the second never returns |
| `Evaluator.ExtractIsFirst` | template/lookup.go:29-53 | A lookup asks the builtins and then the data: a builtin hides data of its name, a failure in either is the failure of the lookup, and it blocks exactly when it is below `$`, no builtin has that name and no value has been set |
| `Evaluator.ExtractFirst` | internal/queryutil/extract.go:13-29 | Of several targets, the first that is not absent decides; the lookup is absent only if all of them are |
| `EvaluatorLaws.BothOperands` | template/template.go:210-233 | Every operator but `??` needs the values of both operands, from the left; whatever else an operand comes to is what the whole comes to |
| `EvaluatorLaws.Comparisons` | template/template.go:250-281 | `<` `<=` `>` `>=` are the order of numbers on two ints or two uints, the lexicographic order on two strings, and a failure on everything else |
| `EvaluatorLaws.Equality` | template/template.go:239-249 | `==` tells like values apart, `!=` is its negation, and both fail on values that cannot be compared |
| `EvaluatorLaws.Connectives` | template/template.go:326-337 | Conjunction, disjunction and negation are the truth functions on bools, and fail on everything else |
| `EvaluatorLaws.Choices` | template/template.go:388-402 | `c ? x : y` is `x` when `c` is true and `y` when it is false, whatever the other branch comes to |
| `EvaluatorLaws.Coalescings` | template/template.go:345-370 | `x ?? y` is `y` if `x` is nil or a place where there is nothing, and `x` otherwise; `defined` tells whether a place is there |
| `EvaluatorLaws.IntSums` | template/val/int.go:85-157 | Sum, difference, product and negation of ints are exact where they fit in 64 bits, and fail otherwise |
| `EvaluatorLaws.UintSums` | template/val/uint.go:108-146 | So are those of uints, but for a product with a zero on the right, which fails |
| `EvaluatorLaws.IntQuotients` | template/val/int.go:159-182 | `/` and `%` on ints are the quotient rounded towards zero and its remainder; a zero divisor fails, and the smallest int by -1 wraps around |
| `EvaluatorLaws.UintQuotients` | template/val/uint.go:147-170 | On uints they are the quotient and the remainder |
| `EvaluatorLaws.NothingElse` | template/template.go:282-325 | Arithmetic fails on mixed kinds; `+` joins two strings |
| `EvaluatorLaws.Joins` | template/template.go:282-294 | Implicit concatenation joins strings, and ints and uints by their decimal form |
| `EvaluatorLaws.Names` | template/lookup.go:29-53 | A name is a builtin function, else the actual value for `$`, else the field of the data |
| `EvaluatorLaws.Selectors` | template/lookup.go:55-118 | A selector takes the field of that name of what is at the place in front of it |
| `EvaluatorLaws.Indexes` | template/lookup.go:55-118 | `list[i]` is element `i`, counted from zero, and an absence outside of the list; a stream gives message `i` |
| `EvaluatorLaws.StringIndexes` | template/lookup.go:55-118 | An index that is a string is a selector |
| `EvaluatorLaws.FunctionCalls` | template/template.go:440-518 | A function is called with the values of its arguments in source order |
| `EvaluatorLaws.MemberCalls` | template/template.go:445-468 | A function in a field is called as such; otherwise a method of that name, with the value in front of the arguments |
| `EvaluatorLaws.FailingCalls` | template/template.go:552-614 | The first argument that has no value is what the call comes to |
| `EvaluatorLaws.Literals` | template/template.go:108-138 | Literals stand for themselves, digits for their number where it fits in 64 bits |
| `EvaluatorLaws.DecimalForm` | template/val/string.go:25-46 | The decimal form of a number reads back as that number, and one below zero has its sign in front |
| `StreamBuffer.FatesAreFinal` | internal/grpcstream/buffer.go:98-184 | Whatever happens after a caller was told a fate, the fate stays and stays true: the message is the one at that index of the stream as completed, a closed stream has no such message, a stopped one was closed with that reason |
| `StreamBuffer.NoLostWakeUp` | internal/grpcstream/buffer.go:129-184 | A parked caller has nothing to see yet, and once its context has ended the broadcast that wakes it is still to come |
| `StreamBuffer.FateWasDecided` | internal/grpcstream/buffer.go:129-184 | In a run, every fate that a caller was told is what a look under the lock decided from the stream and the context as they were then |
| `StreamBuffer.InterruptedOnlyWhileOpen` | internal/grpcstream/buffer.go:160-184 | In every run, the look that told a caller a context error found neither the message nor an end, and the context ended with that error |
| `StreamBuffer.ToldWhatWasProduced` | internal/grpcstream/buffer.go:129-184 | In every run, read off what was done: a caller that asked for index i was told a message only if it is the i-th one produced or, for i below zero after a clean end, the one at that place from the end; that there is none, only after a clean end without that place; of a stop or the end of its context, only when neither applied |
| `StreamBuffer.Buffer.Look` | internal/grpcstream/buffer.go:147-184 | One round under the lock decides by index, end and context, in this order of precedence |
| `StreamBuffer.Buffer.Append` | internal/grpcstream/buffer.go:98-104 | Appending adds one message at the end |
| `StreamBuffer.Buffer.Close` | internal/grpcstream/buffer.go:113-119 | Closing records the end and its reason |
| `MessageReference.OnlyAbsenceIsAbsorbed` | protocol/grpc/request_stream.go:288-297 | In any run of a stream, `response.messages[n] ?? fallback` takes the fallback, and `defined(response.messages[n])` is false, exactly when the stream ended cleanly without message n (or, for `??`, the message is nil); a stopped stream or interrupted wait makes both fail |
| `MessageReference.ReferenceValue` | template/lookup.go:55-118 | Through query building, the builtins, the data and the accessor, a reference gives the message, an absence or a failure as the buffer does |
| `BidiStream.TemplatesSeeEarlierRequests` | protocol/grpc/request_stream.go:147-194 | In every interleaving of sender and receiver, the template of message i sees exactly the i requests before it |
| `BidiStream.AllAreSent` | protocol/grpc/request_stream.go:154-206 | In every run the result has the requests that were built, in order; the sender closes its side, and ends on the normal path, only after sending one for every message, unless a send reported that the peer had ended the stream |
| `BidiStream.AllAreExchanged` | protocol/grpc/request_stream.go:154-216 | When nothing fails, a call that has returned has sent all requests in order and has all messages of the peer |
| `BidiStream.PartialResult` | protocol/grpc/request_stream.go:161-206 | A call that returns otherwise has the messages that had come when it gave up: with a failure after a template or request that failed, with the error as its status after a send, or the end of sending, that failed |
| `BidiStream.ResultHasMessages` | protocol/grpc/request_stream.go:108-216 | The messages of the result are always the first ones that the peer produced; on the normal path they are all of them up to the end of the stream, and the status is what ended it |
| `BidiStream.CleanEndIsThePeers` | internal/grpcstream/buffer.go:60-71 | The buffer counts as ended, so that missing messages are absent, if and only if the peer ended the stream: by its end, or by a status that came before this side's context ended |
| `BidiStream.AbortEnds` | protocol/grpc/request_stream.go:237-245 | The receiver's report is taken at most once, sending it never blocks, and an aborting sender waits for it only when it is there or comes with the receiver's next step |
| `OneWayStreams.RunServerStream` | protocol/grpc/request_stream.go:52-73 | A server stream yields the messages before the first failed receive, and that failure as status unless it is the end of the stream |
| `OneWayStreams.RunClientStream` | protocol/grpc/request_stream.go:77-102 | A client stream sends up to the first failed send; the end of the stream defers to the response, another failure is the status |
| `WasmHostProofs.CallsGetOwnAnswers` | plugin/wasm_host.go:413-463 | In every interleaving of calls, guest and shutdown, undecodable responses included: before cancellation at most one request is outstanding, and it is that of the waiting call; a call answered before cancellation got the answer to its own request |
| `WasmHostProofs.LengthsAreReal` | plugin/wasm_host.go:477-495 | The length handed to the guest is that of the request it can read next, and neither the one that means cancellation nor the one that means no request |
| `WasmHostService.RefusedWhenTooLong` | plugin/wasm_host.go:477-500 | While the guest runs, a call that holds the lock is refused at its check if and only if its request has 0xFFFFFFFF bytes or more |
| `WasmHostService.CallsCanBeAnswered` | plugin/wasm_host.go:413-463 | From every reachable state before shutdown in which the guest runs, a shorter request that is not sent yet can be served: the call returns the answer to its own request, with any interval the guest chooses, which is then the stored one |
| `WasmHostProofs.NoLostWakeUp` | plugin/wasm_host.go:301-324 | A guest that waits with an outdated polling interval has a token to take, or the call that changed the interval is about to post one |
| `WasmHostProofs.LeavesWaitFor` | plugin/wasm_host.go:296-324 | A guest that waits is told of a request that is there, with its length, of shutdown, or of a new interval, and that there is no request only if it polls |
| `WasmHostProofs.SentAfterDoneWhen` | plugin/wasm_host.go:491-506 | When the guest is gone, a call may still send its request in some run if and only if it has passed the first check and the channel has room |
| `WasmHostProofs.NothingSentAfterDone` | plugin/wasm_host.go:491-506 | So a call that has not passed the first check by then never sends |
| `WasmHostProofs.SentAfterDone` | plugin/wasm_host.go:491-506 | A reachable state in which a call sends after the guest is gone |
| `WasmHostProofs.NeverStuck` | plugin/wasm_host.go:389-411 | From the closing of the runtime on, some step is possible until the shutdown is complete and every call has returned |
| `WasmHostProofs.ShutdownIsBounded` | plugin/wasm_host.go:389-411 | However the steps are chosen, shutdown takes a bounded number of them |
| `WasmHostProofs.ShutdownCompletes` | plugin/wasm_host.go:389-411 | Hence the guest ends, no call and no host function stays blocked, and `Close` completes |
| `Context.TestContext.WaitParallel` | reporter/context.go:115-125 | Taking a slot, or queueing, keeps the bound on slots and leaves none free while tests wait |
| `Context.TestContext.Release` | reporter/context.go:131-141 | So does freeing a slot, or taking a test off the queue for a hand-off |
| `Semaphore.SlotsAreAccurate` | reporter/context.go:115-141 | For clients that take and free slots in turn, in every reachable state: the counter is the slots held or being handed over, at most the limit; blocked clients are in the queue or about to be handed a slot; nobody waits while a slot is free |
| `SchedulerInvariant.StepTree` | reporter/reporter.go:316-597 | Every step of a run keeps the tree of tests consistent: a sequential test is awaited by its parent, a parallel one has its parent's barrier in front of it, nobody runs teardowns while a parallel subtest is left |
| `SchedulerRuns.SlotsAddUp` | reporter/reporter.go:506-597 | In every reachable state the counter is the number of tests on a slot less those that gave up a slot they did not have, and is at most the limit; tests wait only while no slot is free |
| `SchedulerExact.CounterExact` | reporter/reporter.go:534-580 | In a run that has ended, the counter was the number of tests on a slot in every state if and only if no parallel test has a teardown of a parallel test above it, at whatever depth |
| `SchedulerExact.SlotsBoundTests` | reporter/reporter.go:550-570 | Where no test has, at most as many tests as there are slots are on one |
| `SchedulerTeardowns.IntrudersMean` | reporter/reporter.go:534-580 | In every state in which slots are where they should be, a test that turned parallel below one without a slot exists if and only if a parallel test has a teardown of a parallel test above it, at whatever depth |
| `SchedulerOversubscription.Oversubscribed` | reporter/reporter.go:550-580 | A run with one slot in which two bodies run at once: a parallel test's teardown has parallel subtests, and the teardown gives up a slot that the test had already given up |
| `SchedulerRuns.RunEndsBalanced` | reporter/reporter.go:506-597 | When the root is over so is every test, with one slot taken and nobody waiting |
| `SchedulerProgress.NeverStuck` | reporter/reporter.go:316-597 | Until then some step is possible in every reachable state, if only that a body ends: there is no deadlock among barriers, hand-offs and waits for subtests |
| `SchedulerProgress.RunIsBounded` | reporter/reporter.go:506-597 | However the scheduler chooses, a run whose bodies only end has a bounded number of steps |
| `SchedulerProgress.RunEnds` | reporter/reporter.go:506-597 | Hence from every reachable state such a run reaches the end |
| `SchedulerOrder.RunOrdered` | reporter/reporter.go:506-597 | In every run: a parallel test resumes only after its parent's body has ended; teardowns run in reverse order of registration, after every subtest is done and one after the other; then cleanups, in reverse order; then nothing more but the test's `done` |
| `SchedulerOrder.AllRanInReverse` | reporter/reporter.go:506-597 | When a test is done, all of its teardowns and cleanups have run, the last one registered first |
| `Failure.Node.Fail` | reporter/reporter.go:221-226 | A failure marks the test and those above it up to the first that keeps its failures, and nothing else; the parent of every failed test that propagates has failed, before and after |
| `FailureSteps.AlwaysPropagated` | reporter/reporter.go:221-226 | In every reachable state, with any number of failures on their way and tests that start to keep theirs to themselves, the parent of a failed test whose failure travels has failed, since tests are marked from the top down |
| `FailureSteps.CallsMark` | reporter/reporter.go:221-226 | When a call of `Fail` is over, the test it was called for has failed |
| `FailureSteps.KeepsFailures` | reporter/reporter.go:221-226 | A test that keeps its failures to itself, or an attempt, keeps all failures at or below it: they mark no test elsewhere, in any interleaving |
| `Failure.Node.RunWithRetry` | reporter/reporter.go:395-417 | Running a subtest under a policy marks the tests above it exactly when the last attempt failed without keeping its failure, or the policy is invalid; the result says whether it failed, and what was seen is what its attempts did |
| `Failure.Node.RunAttempt` | reporter/reporter.go:451-466 | An attempt, whatever it does, marks no test that was there before it |
| `Failure.Node.RunPolicy` | reporter/reporter.go:437-486 | The retried test ends like its last attempt, failed or skipped |
| `Failure.FailsWhenAllFail` | reporter/reporter.go:451-486 | A retried test fails exactly when every attempt that its policy allows would fail |
| `Failure.EndsLikeLastAttempt` | reporter/reporter.go:437-486 | It fails, keeps its failures and is skipped, provided that it has not failed, as the first attempt that does not fail, or else the last one; all attempts up to that are seen; an invalid policy is a failure |
| `Failure.FailsWhenAnActFails` | reporter/reporter.go:395-434 | A test fails exactly when something in its body makes it fail, a subtest that tells of its failure included, and tells its parent exactly when that is so before it starts to keep its failures |
| `Failure.WorkMeans` | step.go:49-75 | A step body fails when something in it does, an included scenario that tells of its failure among it, and goes on with the included test exactly when that has neither failed nor been skipped |
| `Scenario.RunScenario` | scenario.go:84-191 | What the tests of the step loop do, what is bound, how steps are recorded and what is marked are what the document and the outside determine, timeouts of included scenarios among it; failures stay propagated |
| `Scenario.NothingAfterFailure` | scenario.go:111-114 | After a step that failed without `continueOnError` nothing more is seen of the scenario: no later step does anything or binds a value |
| `Scenario.StepOutcome` | scenario.go:87-182 | A step fails for an invalid policy or if all its attempts fail, which go on until one does not; what is seen of it is what is seen of these attempts; a skipped step is not seen and fails only for its policy; what is recorded is the result of the test in the context of the last attempt |
| `Scenario.ResultsMean` | scenario.go:183-190 | After the loop `steps.<id>` has the result of the last step with this id and a valid policy: skipped when a step before it has failed, else what its last attempt came to |
| `Scenario.StepsInOrder` | scenario.go:84-191 | What an earlier step does and binds is seen before what a later one does |
| `Scenario.AttemptMeans` | scenario.go:97-179 | An attempt runs the body, and then binds, exactly as its condition, the test in the context after the body and the templates tell |
| `Scenario.BodyRunMeans` | scenario.go:87-141 | A step runs its body exactly when no earlier step failed without `continueOnError`, its policy is valid, and an attempt it makes could be reset and meets its condition |
| `Scenario.VarsBoundMeans` | scenario.go:141-160 | A step binds a value to variables exactly when, besides, the body of that attempt leaves no failed test in the context |
| `Scenario.SecretsBoundMeans` | scenario.go:161-179 | And secrets exactly when the variables of that attempt could be bound as well |
| `Scenario.FailedBodyStops` | scenario.go:245-286 | An attempt whose body has failed binds nothing, and is recorded as failed, if and only if its context does not come back from an included scenario that did not fail, or it has nothing to bind |
| `Scenario.TimedOutIncludeBinds` | step.go:64-75 | An included scenario that ends without failure after the timeout: the step fails, blocks those after it, binds its variables nevertheless, and is recorded as passed |
| `Scenario.StepTells` | scenario.go:115-141 | A failed step fails the scenario unless it may fail and its last attempt got as far as its body: an invalid condition fails the scenario even with `continueOnError` |
| `Scenario.FailsAndGoesOn` | scenario.go:116-182 | Such a step: its scenario fails, and the step after it runs its body |
| `Scenario.NoLogAfterFailure` | scenario.go:111-114 | A step after the failure is not seen and ends as skipped |
| `Codec.Serializer.ToSerializable` | reporter/codec.go:57-123 | Walking parents and children, cycles included, records every reporter once, exactly those that can be reached, and terminates |
| `Codec.Restorer.SetFromSerializable` | reporter/codec.go:159-207 | Rebuilding from records, with reporters shared through the address map and failures marked on the way, ends with every reporter made so far as recorded, its parent being one of those who list it, but for those still under construction |
| `Codec.Restorer.Resolve` | reporter/codec.go:209-221 | A reporter is made once for each address |
| `Codec.Restorer.Fail` | reporter/reporter.go:221-226 | Marking a rebuilt reporter as failed reaches only reporters recorded as failed |
| `Codec.RoundTrip` | reporter/codec.go:57-221 | Recording and rebuilding gives back every reporter connected to the given one, and no other: edges, flags, depth, names and logs in order, for a running reporter not yet in its parent's list as well; a subtest of an attempt, which the retried test lists too, gets that as its parent unless the given reporter is the attempt or below it |
| `Codec.UnchangedWhen` | reporter/codec.go:193-201 | So a reporter comes back as it was if and only if only its parent lists it, or its parent is the given reporter or above it |
| `Assertion.BuildAndAssert` | assert/assertion.go:54-82 | An expectation is built if and only if its templates can be executed and left-arrow calls are alone in their maps; asserting reports the leaves that fail in direct matching, once each and in source order, as a path error or as a query that found nothing, and nothing exactly when the value matches |
| `Assertion.ChecksMeanMatching` | assert/assertion.go:97-172 | The flat list of path checks fails where direct recursive matching does |
| `Assertion.NoneFailing` | assert/assertion.go:67-81 | No leaf fails exactly when the value matches: maps ask for the listed keys, lists for the first elements, empty ones for nothing |
| `Assertion.LeavesMean` | assert/assertion.go:148-162 | A leaf where nothing is found is reported as missing, unless it decides about an absent value itself; all others are asked |
| `Assertion.KeysMean` | assert/assertion.go:97-141 | An expectation for a key looks at the field of that name, and at nothing where there is none |
| `Assertion.ArrowsMean` | assert/assertion.go:106-127 | An expectation behind a left-arrow call looks at the same place and shows the call |
| `Assertion.ElementsMean` | assert/assertion.go:142-158 | The expectations of a list look at the elements at their places, counted from zero, one after the other |
| `Assertion.ItemsInOrder` | assert/assertion.go:97-141 | The items of a map report one after the other |
| `Assertion.Build` | assert/assertion.go:97-182 | The loops over items and elements compile to the specified checks |
| `Assertion.PatchAll` | assert/assertion.go:119-126 | Replacing each compiled check in place inserts the left-arrow call in the path that its path errors show, and leaves the path it looks at |
| `Assertion.ChecksMoved` | assert/assertion.go:119-126 | Reported paths differ from queried ones only by the inserted calls |
| `Baggage.FitMembers` | internal/protocolmeta/inject.go:170-179 | Optional members are dropped from the front, and no more of them than needed |
| `Baggage.FittedIsLongest` | internal/protocolmeta/inject.go:166-194 | What is added, with the marker if something was dropped, fits in 2048 bytes unless no optional member is left; every longer suffix would not |
| `Baggage.InjectBaggage` | internal/protocolmeta/inject.go:70-131 | The header is left as it was, or becomes the user's members and those of this request; the former exactly when it breaks a limit before or would after |
| `Baggage.MergedMeans` | internal/protocolmeta/inject.go:97-131 | A replaced header has every valid user member, only this request's members with the `scenarigo.` prefix, and meets the limits of 8192 bytes and 64 members exactly when the merge was accepted |
| `Baggage.CountMembers` | internal/protocolmeta/inject.go:196-208 | Blank parts do not count as members |
| `Baggage.AddedIsBag` | internal/protocolmeta/inject.go:135-164 | The members added have different keys, all with the prefix that scenarigo owns |
| `Baggage.AddedValues` | internal/protocolmeta/inject.go:133-164 | Each of the eight keys has its own value, and is there exactly when that is there and can be carried and, for the optional two, was not dropped; the marker is there exactly when something was |
| `Baggage.ParsedMeans` | internal/protocolmeta/inject.go:97-131 | Of several members of the user with one key, the last one counts |
| `OrderedMaps.OrderedMap.Set` | schema/yaml.go:30-41 | Setting a key keeps the index exact and changes the list as the association list does |
| `OrderedMaps.OrderedMap.Get` | schema/yaml.go:44-58 | Looking a key up through the index finds what the map of the list has |
| `OrderedMaps.OrderedMap.Delete` | schema/yaml.go:61-72 | Deleting a key and reindexing the rest keeps the index exact |
| `OrderedMaps.OrderedMap.ToMap` | schema/yaml.go:80-86 | The map of the list |
| `OrderedMaps.PutMeans` | schema/yaml.go:30-41 | An existing key keeps its place, a new one comes last, and the map changes at that key only |
| `OrderedMaps.RemoveMeans` | schema/yaml.go:61-72 | Deleting removes the key from the map and keeps the order of the others |

## Left out

- Positions in syntax trees: the parser carries them along; only the scanner's are modelled.
- Left-arrow functions, with the YAML scanner of `template/parser/yaml.go` and `template/execute.go`: they rest on an external lexer and on reflection. Parsing them is modelled, their values are opaque.
- Strings found in data that are templates themselves: a lookup executes them through `template/execute.go`; here looked-up values are plain.
- The classification of characters outside ASCII is a parameter of the scanner; texts with U+FFFD are excluded, since the scanner takes that character for the end of the text.
- Floats, times, durations and byte strings: they need IEEE and library semantics.
- Conversion of function arguments and injection of the execution context: calls are pure functions of their evaluated arguments.
- Scanner.Scanner.Scan: after the braces of a left-arrow call the rest of the text is handed over; the tokens that the YAML scanner makes of it are not modelled.
- Literals that the scanner does not make, such as one with a leading zero or a prefix for another base, are errors here.
- Evaluator.ExtractIsFirst: data is a finite tree with absent, failed and found lookups; struct fields and proto descriptors are reached by reflection in the original.
- MachineProofs.ResumesLikeEval: for an uncancelled context; a cancelled wait for `$` is an error of that read, which no part of the expression absorbs.
- Lazy.Deferred.Call: for calls one after the other; those at the same time are the subject of `LazyCalls`, for an uncancelled context and with atomic accesses to the shared variable.
- SchedulerOrder.RunOrdered: for tests made by `Run`, not for retry attempts, which reach the release in the original once more than their policy node; teardowns and cleanups are registered before the loop that runs them begins, and a body calls `Run` from one goroutine at a time.
- SchedulerProgress.RunEnds: bodies that never end, or that run subtests for ever, are outside of it.
- A teardown that turns parallel: nobody receives its `done` in the original.
- Panics in test bodies, logs, durations, reports, spans and the test-name filter: bookkeeping beside the protocol.
- Failure.Node.RunWithRetry: real time, back-off intervals and elapsed-time limits are the number of attempts that the policy happens to allow; a policy that retries for ever is the runs in which it does so finitely often.
- Failure.Node.Fail: one failure at a time; failures at the same time are the subject of `FailureSteps.AlwaysPropagated`.
- Scenario.RunScenario: plugins, scenario variables and secrets before the first step; a step body is the list of what it does to its test and to the outside, and of what a timeout does meanwhile; a plugin step that goes on with a test of its own is one that includes it.
- Scenario.StepTells: for step bodies that leave it to the loop to keep failures from the scenario, which is the only caller of that operation in the original.
- Semaphore.SlotsAreAccurate: with a limit of at least one slot; a limit below one is not rejected by the original and leaves every waiting test queued.
- Deadlines and timers are steps that may happen at any time.
- StreamBuffer.NoLostWakeUp: the number of parked callers, which only the original's own checks read, is not counted.
- BidiStream.ResultHasMessages: the content of headers and trailers.
- WasmHostProofs.CallsGetOwnAnswers: given a guest that writes once for each request it has read, until it is cancelled.
- WasmHostProofs.ShutdownCompletes: given that the engine ends the guest after the host function it is in returns, once the runtime is closed; pipes and reporter synchronisation are not modelled.
- Codec.RoundTrip: for graphs whose children point back to the reporter that lists them, or to its attempt, and whose failures have reached those who list the failed test; a record map with missing addresses is not covered. Restored logs are informational, only their texts are claimed. Test contexts, durations and spans are copied field by field and left out.
- `SyncFromSerializable`: it copies logs and flags without following edges.
- Assertion.BuildAndAssert: what leaves check, equality included, is opaque; the text of an error is its path.
- Baggage.InjectBaggage: the baggage parser and the percent-encoding are not visible; a valid part comes with its member and size. Warnings are not modelled.
- OrderedMaps.OrderedMap.Set: maps made by `NewOrderedMap`; unmarshalling a document with a repeated key builds an index that this does not cover.
- gRPC, HTTP, TLS, files, plugins other than the WASM host, ytt and the command line: I/O and libraries.
