# Verified model of the Copilot C++ SDK

The SDK talks to a Copilot runtime over JSON-RPC: it spawns the runtime as a
child process (or loads it into its own), frames messages over a byte stream,
matches responses to callers, dispatches events to session handlers and answers
requests of the runtime. This project models the parts where many threads, long
byte streams or delicate arithmetic meet, and proves what the SDK relies on.

Two styles are used side by side. Code that runs on one thread is written as
methods and classes in the source's own form and proved equal to a
specification function or state. Code that races is a state machine whose steps
are the lock-protected sections and atomic accesses of the source; theorems
about it quantify over every run, that is, over every interleaving. Where both
are present, the methods are proved to be runs of the machine, with whatever the
other threads do between their critical sections.

| module | what it models |
|---|---|
| `CommandLine` | quoting of arguments for a Windows child, against the documented `CommandLineToArgvW` rules |
| `EnvironmentBlock` | reading, overlaying and printing a Windows environment block |
| `MessageFramer` | the buffered reader and the writer of Content-Length frames (Language Server Protocol 3.17, Base Protocol, Header Part) |
| `JsonRpcClient` | the pending map raced over by callers, read thread, timeout thread and `stop()` (JSON-RPC 2.0, sections 4 and 5) |
| `Timestamp` | the RFC 3339 parser and its nanosecond arithmetic (sections 5.1 and 5.6) |
| `RequestBridge` | the bridge that runs user request handlers and streams their responses while cancellation may arrive |
| `FfiTransport` | the in-process transport and its bounded-retry close |
| `ToolCalls` | tool invocations of a session: counting, cancelling, answering, waiting |
| `Subscriptions` | move-only subscription handles, handler list, event dispatch |
| `SessionRegistry` | the client's session map and connection state |
| `Process` | waiting for and signalling a POSIX child |
| `KnownValues` | the schema tool's nested de-duplication |
| `Basics` | shared vocabulary |

## Findings

The code does not meet some properties one would expect of it. Each is stated
with its exact condition and a concrete input.

- A quoted executable name that ends in backslashes comes back with that run
  doubled, because program names follow other rules than arguments
  (`CommandLine.RoundTrip`, `CommandLine.BackslashDoubled`).
- Request ids repeat after 2^64 calls, and only then (`JsonRpcClient.IdsRepeat`,
  `JsonRpcClient.FirstRepeat`).
- UTC timestamps before 1677-09-21T00:12:44Z or after
  2262-04-11T23:47:16.854775807Z are accepted although the computation of their
  instant overflows (`Timestamp.ExactlyWhen`, `Timestamp.FitsExactly`,
  `Timestamp.AcceptedButTooLate`).
- Closing a cancelled websocket may throw, and then its entry stays in the
  bridge's map (`RequestBridge.QuiescentBooks`, `RequestBridge.CancelledStaysPending`).
- A write to the in-process transport that has found it open may call into the
  library after a close has unloaded it (`FfiTransport.WriteReaches`,
  `FfiTransport.WriteAfterUnload`).
- The counter of tool invocations stays too high when a thread cannot be
  launched or when something that is not a `std::exception` is thrown
  (`ToolCalls.CounterIsExact`, `ToolCalls.CounterStaysHigh`).
- A callback that throws out of `unsubscribe()` stays in its handle and runs
  again later (`Subscriptions.RunsOnceIfNoneThrew`, `Subscriptions.CallbackRunsTwice`).
- A create call that fails after its try block leaves its session registered
  (`SessionRegistry.FailureLeavesBehind`, `SessionRegistry.LateFailureRegistered`),
  and one that fails inside it removes whatever session holds its id
  (`SessionRegistry.StaysUnlessDisplaced`, `SessionRegistry.FailureDropsAnother`).
- `is_running()` is true of a child that has exited until somebody waits for it
  (`Process.WatchedUntilReaped`, `Process.ZombieIsWatched`).
- The comment in `parse_iso8601_timestamp` asks for a zone and at most nine
  fraction digits; the code also accepts a missing zone, an offset without a
  colon, a space as separator, any number of digits and times no clock shows
  (`Timestamp.Grammar`, `Timestamp.AcceptedWithoutZone`).

## Model

| member | source | states |
|---|---|---|
| `CommandLine.QuoteArgument` | src/process_win32.cpp:111-160 | an argument is quoted exactly when it is empty or has a special character, and then escaped by runs |
| `CommandLine.CountBackslashes` | src/process_win32.cpp:142-145 | the inner loop finds the whole run of backslashes |
| `CommandLine.EscapeBackslashesAndQuotes` | src/process_win32.cpp:133-158 | the index-advancing loop equals the recursive escaping of runs |
| `CommandLine.BuildCommandLine` | src/process_win32.cpp:162-169 | name and arguments, quoted, joined by single spaces |
| `CommandLine.QuotedExactly` | src/process_win32.cpp:113-130 | an argument is quoted if and only if it is empty or holds one of the listed characters, and otherwise left as it is |
| `CommandLine.LineBytes` | src/process_win32.cpp:162-169 | the very characters of a line with a plain, a quoted and an empty argument |
| `CommandLine.EscapeParses` | src/process_win32.cpp:132-159 | inside quotes, the documented rules undo the escaping and stop at the closing quote, for any text |
| `CommandLine.PlainParses` | src/process_win32.cpp:129-130 | an argument left unquoted stands for itself |
| `CommandLine.QuoteParses` | src/process_win32.cpp:111-160 | every argument, with whatever follows it, parses back to itself |
| `CommandLine.TailSplits` | src/process_win32.cpp:166-168 | any list of arguments splits back into exactly that list |
| `CommandLine.QuotedName` | src/process_win32.cpp:165 | a quoted executable name comes back with its trailing backslashes doubled, the arguments unchanged |
| `CommandLine.PlainName` | src/process_win32.cpp:165 | an unquoted name without blanks or control characters comes back unchanged |
| `CommandLine.RoundTrip` | src/process_win32.cpp:111-169 | the command line splits back into name and arguments if and only if the name survives its own rules |
| `CommandLine.BackslashDoubled` | src/process_win32.cpp:146-148 | the name `a b\` comes back as `a b\\` |
| `EnvironmentBlock.ParseBlock` | src/process_win32.cpp:461-470 | the loop over the inherited block yields the map the entries define, later entries winning |
| `EnvironmentBlock.AddEntry` | src/process_win32.cpp:466-469 | an entry splits at its first `=`, and defines nothing without one or with an empty key |
| `EnvironmentBlock.Overlay` | src/process_win32.cpp:476-477 | supplied variables win over inherited ones, all others stay |
| `EnvironmentBlock.PrintBlock` | src/process_win32.cpp:480-485 | entries in key order, each closed by a NUL, and a final NUL |
| `EnvironmentBlock.BuildBlock` | src/process_win32.cpp:452-486 | no block exactly when nothing is supplied and everything inherited, otherwise the print of the overlaid map |
| `EnvironmentBlock.EntriesParse` | src/process_win32.cpp:464-485 | parsing a printed map on top of any map overlays the two |
| `EnvironmentBlock.ParsedIsCarriable` | src/process_win32.cpp:464-470 | whatever a block defines can be carried by a block again |
| `EnvironmentBlock.BadEntryIgnored` | src/process_win32.cpp:464-470 | an entry without `=`, or with nothing before it, defines nothing and leaves the others alone |
| `EnvironmentBlock.BlockBytes` | src/process_win32.cpp:479-485 | the very bytes of a block of two entries and of an empty one |
| `EnvironmentBlock.RoundTrip` | src/process_win32.cpp:464-485 | print then parse gives the map back if and only if keys are non-empty without `=` and nothing holds a NUL |
| `EnvironmentBlock.ChildEnvironment` | src/process_win32.cpp:456-485 | the child reads the inherited map overlaid by the supplied one |
| `EnvironmentBlock.PrintedIsTerminated` | src/process_win32.cpp:479-485 | the printed block ends where a reader of blocks expects it to |
| `MessageFramer.Framer.WriteMessage` | include/copilot/transport.hpp:179-183 | one write appends the frame of the message to what went out before |
| `MessageFramer.Framer.Compact` | include/copilot/transport.hpp:233-248 | the unread bytes move to the front, in order, and nothing else is kept |
| `MessageFramer.Framer.FillBuffer` | include/copilot/transport.hpp:231-269 | buffered plus unread transport bytes stay the same, across compaction and growth; short only at the end of the stream |
| `MessageFramer.Framer.ReadLine` | include/copilot/transport.hpp:203-229 | the line up to the first line feed without one trailing carriage return, the rest of the stream untouched |
| `MessageFramer.Framer.Drain` | include/copilot/transport.hpp:187-191 | the body starts with what the header reads left in the buffer, no byte lost or repeated |
| `MessageFramer.Framer.ReadExact` | include/copilot/transport.hpp:185-201 | exactly the next bytes of the stream, or the stream ended before |
| `MessageFramer.Framer.ReadHeaders` | include/copilot/transport.hpp:133-170 | the last length the header lines give, case-insensitively, or the error the source throws |
| `MessageFramer.Framer.ReadMessage` | include/copilot/transport.hpp:131-177 | for every way the transport splits reads: result and remaining stream are those of the stream's meaning |
| `MessageFramer.Framer.ReadLoop` | include/copilot/jsonrpc.hpp:526-555 | in however many rounds before its flag is cleared, the read thread hands on exactly what so many rounds of the stream deliver, bad frames skipped; all of it once the connection has closed, which more rounds than bytes always reach |
| `MessageFramer.DeliverInIsFirst` | include/copilot/jsonrpc.hpp:526-555 | stopping early only leaves the rest of the stream: what was handed on is the beginning of all messages |
| `MessageFramer.AccumulateDigits` | include/copilot/transport.hpp:159-181 | a printed length reads back whatever follows it |
| `MessageFramer.HeadersReadBack` | include/copilot/transport.hpp:133-181 | the header of a written frame gives its length and leaves the body |
| `MessageFramer.FrameReceived` | include/copilot/transport.hpp:131-183 | a written frame gives exactly its message, the rest of the stream unchanged |
| `MessageFramer.HeadersMean` | include/copilot/transport.hpp:133-170 | any header: lines of other names are passed over, the last length counts in any letter case, spacing and line ending, and without one the header is refused |
| `MessageFramer.AnyHeaderReceived` | include/copilot/transport.hpp:131-177 | a message under any such header is received, the rest of the stream unchanged; one too large is refused before its body |
| `MessageFramer.BadLengthRefused` | include/copilot/transport.hpp:150-164 | a length that is no number is refused and the rest of the header left |
| `MessageFramer.NumberReads` | include/copilot/transport.hpp:153-159 | a length reads through space and sign, whatever follows it, modulo 2^64 when negative, and not at all from 2^64 on |
| `MessageFramer.NoNumberReads` | include/copilot/transport.hpp:159-164 | without a digit after space and sign there is no number |
| `MessageFramer.ContentTypeReceived` | include/copilot/transport.hpp:133-176 | a frame with a content type before its length is received |
| `MessageFramer.FrameBytes` | include/copilot/transport.hpp:179-183 | the very bytes of a frame |
| `MessageFramer.RoundTrip` | include/copilot/transport.hpp:131-183 | messages written back to back are received as the same messages in order |
| `MessageFramer.CutFrame` | include/copilot/transport.hpp:197-214 | a frame cut at any byte is never a message |
| `MessageFramer.CutAnywhere` | include/copilot/transport.hpp:131-269 | a connection that breaks at any byte has delivered exactly the whole frames before it |
| `JsonRpcClient.Client.DrawId` | include/copilot/jsonrpc.hpp:405 | ids count up from 1 in 64 bits and wrap |
| `JsonRpcClient.Client.Invoke` | include/copilot/jsonrpc.hpp:401-430 | with all others interfering between its critical sections, a call draws the next id, registers and sends, or withdraws its entry |
| `JsonRpcClient.Client.HandleResponse` | include/copilot/jsonrpc.hpp:582-622 | a response to a pending call with a result and no error settles it with that result, one with a well-formed error with that error, and every other message settles nothing |
| `JsonRpcClient.CompletionMeans` | include/copilot/jsonrpc.hpp:557-622 | what a message completes, by its members: value, error, or nothing |
| `JsonRpcClient.Client.TimeoutPass` | include/copilot/jsonrpc.hpp:436-496 | every expired promise ends up settled with a timeout while others go on; the deadline returned is the least of those that stay |
| `JsonRpcClient.Client.FailAllPending` | include/copilot/jsonrpc.hpp:681-704 | the whole map is taken first, and every promise that was in it ends up settled as closed |
| `JsonRpcClient.Client.FailPendingRequest` | include/copilot/jsonrpc.hpp:499-518 | a caller that gives up settles its promise with a timeout if it is still pending, and otherwise leaves it to whoever took it |
| `JsonRpcClient.Client.TakeOne` | include/copilot/jsonrpc.hpp:602-606 | finding and erasing takes one entry and leaves the others |
| `JsonRpcClient.Client.ScanExpired` | include/copilot/jsonrpc.hpp:438-457 | one pass removes exactly the expired entries, in id order, and finds the exact minimum surviving deadline |
| `JsonRpcClient.Client.TakeAll` | include/copilot/jsonrpc.hpp:683-690 | every promise is taken once, in id order, and the map is empty |
| `JsonRpcClient.TakenIsHeld` | include/copilot/jsonrpc.hpp:438-606 | after a critical section a thread holds exactly the promises it took, each once |
| `JsonRpcClient.WithoutLeaves` | include/copilot/jsonrpc.hpp:481-622 | whatever the others do, a promise in a thread's hand stays there until that thread settles it |
| `JsonRpcClient.IdsRepeat` | include/copilot/jsonrpc.hpp:316-405 | two calls share an id if and only if a multiple of 2^64 calls lies between them |
| `JsonRpcClient.IdsCountUp` | include/copilot/jsonrpc.hpp:405 | ids start at 1 and count up by one, from the largest to the smallest number |
| `JsonRpcClient.FirstRepeat` | include/copilot/jsonrpc.hpp:708 | call 0 and call 2^64 both get id 1 |
| `JsonRpcClient.TakeKeeps` | include/copilot/jsonrpc.hpp:499-518 | taking entries out under the lock moves exactly their promises into the taker's hand |
| `JsonRpcClient.ReceiveKeeps` | include/copilot/jsonrpc.hpp:557-622 | a response settles at most the call it names, anything else settles none |
| `JsonRpcClient.ScanKeeps` | include/copilot/jsonrpc.hpp:436-496 | a pass at any earlier clock reading only takes promises whose deadline has passed |
| `JsonRpcClient.RegisterKeeps` | include/copilot/jsonrpc.hpp:416-425 | a new entry never displaces another call's promise |
| `JsonRpcClient.RejectKeeps` | include/copilot/jsonrpc.hpp:330-340 | a failed send withdraws its own promise unless somebody else has it already |
| `JsonRpcClient.TakeCallersOwn` | include/copilot/jsonrpc.hpp:355-363 | a synchronous caller that gives up only takes its own promise |
| `JsonRpcClient.StepKeepsInv` | include/copilot/jsonrpc.hpp:254-704 | every atomic step of every thread keeps the invariant |
| `JsonRpcClient.RunKeepsInv` | include/copilot/jsonrpc.hpp:254-704 | so does every interleaving, up to 2^64 calls |
| `JsonRpcClient.SettledAtMostOnce` | include/copilot/jsonrpc.hpp:481-622 | in every run each promise is settled at most once |
| `JsonRpcClient.AnswersMatch` | include/copilot/jsonrpc.hpp:582-622 | a settled value or error is that of a message the read thread received, with this call's id and no method, and no other call has that id |
| `JsonRpcClient.NeverEarly` | include/copilot/jsonrpc.hpp:203-518 | a timeout settles a call only at or after the time it was registered with plus the timeout it was drawn with, and only if that is positive |
| `JsonRpcClient.CallsAreDrawn` | include/copilot/jsonrpc.hpp:401-414 | each call has the timeout of its own drawing and the time of its own registration in the run |
| `JsonRpcClient.DueExactly` | include/copilot/jsonrpc.hpp:203-457 | a pass takes a pending request if and only if it has a timeout that has passed |
| `JsonRpcClient.RunsUntilStopped` | include/copilot/jsonrpc.hpp:254-283 | the client is running if and only if it was started and neither stopped nor at the end of the stream |
| `JsonRpcClient.NothingIsLost` | include/copilot/jsonrpc.hpp:310-704 | every issued call is in exactly one place: drawn, pending, in a hand, settled, rejected |
| `JsonRpcClient.StopSettlesAll` | include/copilot/jsonrpc.hpp:264-283 | all requests registered before the final swap are settled or rejected when `stop()` returns, but for callers mid-removal |
| `JsonRpcClient.EndOfStreamSettlesAll` | include/copilot/jsonrpc.hpp:536-541 | once the read thread is gone after the end of the stream, what was registered before its sweep is settled, rejected, or in the hand of the timeout thread or its own caller |
| `JsonRpcClient.RunKeepsAway` | include/copilot/jsonrpc.hpp:481-704 | a promise out of the map never gets back into it or into another hand |
| `JsonRpcClient.RunKeepsFate` | include/copilot/jsonrpc.hpp:481-704 | whatever all others do, a promise in a hand stays in it until it is settled with the outcome it was taken for |
| `Timestamp.ParseFixedDecimal` | include/copilot/types.hpp:2310-2324 | succeeds exactly on that many digits, with their value |
| `Timestamp.ParseFraction` | include/copilot/types.hpp:2352-2377 | the first nine digits in nanoseconds and the end of all digits; a dot without digits fails |
| `Timestamp.ParseZone` | include/copilot/types.hpp:2379-2411 | the offset in minutes, exactly for a zone that ends the text |
| `Timestamp.ParseHead` | include/copilot/types.hpp:2330-2350 | the nineteen leading characters match, with their numbers |
| `Timestamp.ParseTimestamp` | include/copilot/types.hpp:2326-2426 | the instant of the fields read, or nothing, and whether any 64-bit step on the way overflowed |
| `Timestamp.Grammar` | include/copilot/types.hpp:2326-2411 | a text reads as given fields if and only if it is those fields printed: the accepted language exactly |
| `Timestamp.ParsePrinted` | include/copilot/types.hpp:2326-2426 | a printed timestamp is accepted exactly when its date exists, with its instant |
| `Timestamp.AcceptedIsPrinted` | include/copilot/types.hpp:2326-2426 | everything accepted is a printed timestamp |
| `Timestamp.ExtraDigitsIgnored` | include/copilot/types.hpp:2364-2376 | digits past the ninth have no effect |
| `Timestamp.OffsetMoves` | include/copilot/types.hpp:2403-2423 | moving the offset by d minutes moves the instant by -d minutes |
| `Timestamp.OffsetsShift` | include/copilot/types.hpp:2379-2423 | h hours and m minutes ahead of UTC is h*60+m minutes earlier, behind it later; no zone and z are UTC |
| `Timestamp.HourAhead` | include/copilot/types.hpp:2388-2423 | the text `2025-01-15T11:30:00+01:00` is an hour before `2025-01-15T11:30:00Z` |
| `Timestamp.FractionAdds` | include/copilot/types.hpp:2352-2377 | a fraction adds its first nine digits, filled up with zeros, as nanoseconds |
| `Timestamp.LettersDoNotMatter` | include/copilot/types.hpp:2341-2343 | T, t and a blank are read alike |
| `Timestamp.AcceptedShape` | include/copilot/types.hpp:2330-2408 | everything accepted has digits, dashes, colons and separator in their places |
| `Timestamp.EpochIsZero` | include/copilot/types.hpp:2420-2423 | 1970-01-01T00:00:00Z is zero |
| `Timestamp.SecondsCount` | include/copilot/types.hpp:2420-2422 | the next second of the clock, with every carry up to the year, is one second later |
| `Timestamp.DaysThatExist` | include/copilot/types.hpp:2413-2418 | the days accepted are those of the twelve months, with the leap days |
| `Timestamp.YearsClosedForm` | include/copilot/types.hpp:2420-2422 | counting days year by year is the leap-year formula |
| `Timestamp.DaysCountDays` | include/copilot/types.hpp:2413-2422 | the day count is 0 on 1970-01-01 and grows by one per calendar day |
| `Timestamp.FractionFits` | include/copilot/types.hpp:2364-2374 | fraction and scale fit 32 bits, their product stays below one second |
| `Timestamp.YearsFit` | include/copilot/types.hpp:2420-2423 | for the years 1678 to 2261 every intermediate and the result fit 64 bits |
| `Timestamp.OtherYearsOverflow` | include/copilot/types.hpp:2420-2423 | before 1677 and after 2262 the local time does not fit |
| `Timestamp.FitsExactly` | include/copilot/types.hpp:2420-2423 | for every zone and any number of digits: the code reaches the local time without overflow if and only if its text lies between two boundary texts; in UTC that is the whole computation |
| `Timestamp.ExactlyWhen` | include/copilot/types.hpp:2420-2423 | for everything accepted, whatever its hour and zone: no step overflows if and only if the local time and the instant lie within their bounds |
| `Timestamp.NineIsSame` | include/copilot/types.hpp:2364-2374 | filling a fraction up to nine digits, or cutting it there, keeps its value |
| `Timestamp.AcceptedButTooLate` | include/copilot/types.hpp:2420-2425 | the text `2262-04-11T23:47:17Z` is accepted and its instant does not fit 64 bits |
| `Timestamp.AcceptedWithoutZone` | include/copilot/types.hpp:2341-2383 | the text `2025-01-17 99:99:99` is accepted |
| `Timestamp.DaysGrow` | include/copilot/types.hpp:2420-2422 | a later date has a larger day count |
| `Timestamp.TextOrder` | include/copilot/types.hpp:2326-2411 | lexicographic order of texts is the order of their fields |
| `Timestamp.OrderingIsChronological` | include/copilot/types.hpp:2326-2426 | section 5.1 of RFC 3339: sorting comparable texts, of any one zone, sorts the instants, both ways |
| `Timestamp.TextsSortValues` | include/copilot/types.hpp:2326-2426 | the same for two texts as they are read, when their instants are computed without overflow |
| `RequestBridge.Bridge.HandleStart` | src/request_handler.cpp:32-92 | an accepted request is registered with an empty body, a refused websocket is not |
| `RequestBridge.Bridge.HandleChunk` | src/request_handler.cpp:97-145 | whatever others do in between, the read thread looks up, acts if it found the exchange, and erases exactly when cancelled or ended and nothing threw; then nothing is under way |
| `RequestBridge.Bridge.CancelFound` | src/request_handler.cpp:107-118 | the flag goes up first, a websocket is closed, and the entry is erased only if that did not throw |
| `RequestBridge.Bridge.Deliver` | src/request_handler.cpp:120-144 | data is appended; the end starts the thread of an HTTP exchange or closes a websocket |
| `RequestBridge.Bridge.CancelAll` | src/request_handler.cpp:221-235 | its steps are taking the whole map and then cancelling each exchange of it once; at the end every one of them is cancelled, under any interference |
| `RequestBridge.Bridge.IsCancelled` | src/request_handler.cpp:153-158 | a look at the flag sees exactly the cancellations before it, and decides where the thread goes |
| `RequestBridge.Bridge.SendResponse` | src/request_handler.cpp:166-190 | start frame, then every chunk once in order, the last one ending, with others interfering after each; or it stops at the first failure |
| `RequestBridge.Bridge.CompleteHttp` | src/request_handler.cpp:148-200 | with all others interfering, the thread is a run of the machine; an early return means cancelled with nothing sent, otherwise the entry is erased |
| `RequestBridge.Bridge.ReportFailure` | src/request_handler.cpp:192-219 | one failure frame unless cancelled by then |
| `RequestBridge.ScriptShape` | src/request_handler.cpp:166-190 | a complete response is a start frame and every chunk in its own frame; only the last one ends, and the data is the handler's chunks joined |
| `RequestBridge.NothingAfterTheEnd` | src/request_handler.cpp:166-219 | at most one acknowledged frame ends, nothing follows it, and an ending chunk means the whole response arrived |
| `RequestBridge.WorkKeeps` | src/request_handler.cpp:148-219 | each step of the thread keeps what is promised of its exchange |
| `RequestBridge.StepKeepsInv` | src/request_handler.cpp:29-235 | every step of read thread, HTTP threads and `cancel_all` keeps the invariant |
| `RequestBridge.RunKeepsInv` | src/request_handler.cpp:29-235 | so does every interleaving |
| `RequestBridge.OthersLeave` | src/request_handler.cpp:97-235 | other threads leave the read thread its place, `cancel_all` its map, and an HTTP thread its exchange but for the flag |
| `RequestBridge.QuiescentBooks` | src/request_handler.cpp:89-235 | with nothing under way, the map holds exactly the started exchanges neither cancelled nor completed, if and only if no websocket entry was left by a close that threw |
| `RequestBridge.CancelledStaysPending` | src/request_handler.cpp:107-117 | a run in which a cancelled websocket stays in the map because its close threw |
| `RequestBridge.HttpBooks` | src/request_handler.cpp:89-200 | for HTTP exchanges the map is always exact |
| `RequestBridge.OutputIsGood` | src/request_handler.cpp:148-219 | in every run the acknowledged frames are a prefix of the response, plus one failure only if proper; a handler that was called got the data of all chunks delivered to it, in order |
| `RequestBridge.ReceivedIsDelivered` | src/request_handler.cpp:97-125 | what an exchange receives is, chunk by chunk, what the read thread looked up for it and acted on, the last one included |
| `RequestBridge.ScriptIsReturned` | src/request_handler.cpp:155-190 | the response being sent is the one the handler returned |
| `RequestBridge.CompleteOrReported` | src/request_handler.cpp:148-219 | an uncancelled thread that is done has sent the whole response or tried to report a failure |
| `RequestBridge.FlagsAreSteps` | src/request_handler.cpp:107-235 | the flag of an exchange goes up exactly at the first step of the run that cancels it |
| `RequestBridge.NoStartAfterCancel` | src/request_handler.cpp:153-166 | a start frame is sent, acknowledged or not, only after a second look that no step cancelling the exchange precedes |
| `FfiTransport.Transport.Start` | src/transport_ffi.cpp:93-137 | open on success; a failed start has closed again and given the library back |
| `FfiTransport.Transport.ReceiveBytes` | src/transport_ffi.cpp:145-160 | bytes queue up behind the others, only while open |
| `FfiTransport.Transport.ReadBytes` | src/transport_ffi.cpp:162-174 | the front of the queue, as much as was asked for or all there is, leaves it in order |
| `FfiTransport.Transport.WriteBytes` | src/transport_ffi.cpp:176-192 | the look under the lock decides whether the runtime is called; the call comes later, whatever has happened since |
| `FfiTransport.Transport.CloseAll` | src/transport_ffi.cpp:195-242 | with readers, writers and arriving bytes in between, one close is a run that asks up to the first yes within the attempts, and only then shuts down and unloads |
| `FfiTransport.StepIsSafe` | src/transport_ffi.cpp:93-260 | every operation keeps the ownership of host, connection and library in order |
| `FfiTransport.NeverUnloadedInUse` | src/transport_ffi.cpp:194-260 | over every run: host shut down and library unloaded at most once, and never while the runtime holds the callback |
| `FfiTransport.CloseDecides` | src/transport_ffi.cpp:195-242 | a close unloads if and only if nothing is held or the runtime says yes; otherwise it has asked exactly as often as allowed |
| `FfiTransport.ClosedIsFinal` | src/transport_ffi.cpp:196-201 | after a complete close the runtime is asked, shut down and unloaded no more, no byte accepted and no new write let through |
| `FfiTransport.ReadsAreFifo` | src/transport_ffi.cpp:145-174 | bytes read are always a prefix of everything that arrived while open, and the rest is queued |
| `FfiTransport.ArrivedIsAccepted` | src/transport_ffi.cpp:145-160 | every byte that arrives between the opening and the first close is accepted, in order, and no other |
| `FfiTransport.WriteReaches` | src/transport_ffi.cpp:176-192 | the call of a write reaches an unloaded library if and only if an unload fell between look and call, and a released connection if and only if a yes did |
| `FfiTransport.OnlyClosesMakeLate` | src/transport_ffi.cpp:176-192 | without an unload no write is late |
| `FfiTransport.WriteAfterUnload` | src/transport_ffi.cpp:176-242 | a run in which a write calls into the unloaded library |
| `ToolCalls.Session.DispatchTool` | src/session.cpp:254-314 | a known tool is counted first, then launched and listed, with others interfering; without a thread the dispatch throws |
| `ToolCalls.Session.Execute` | src/session.cpp:270-312 | the thread of a call, exceptions included, is a run of the machine that ends counted down unless something foreign escapes |
| `ToolCalls.Session.Answer` | src/session.cpp:275-280 | an answer is sent only after the flag was seen clear, otherwise dropped |
| `ToolCalls.AdvanceKeeps` | src/session.cpp:268-312 | each step of a call keeps its promises |
| `ToolCalls.StepKeepsInv` | src/session.cpp:60-313 | every step of dispatch, threads, cancellation and destructor keeps the invariant |
| `ToolCalls.WaitedEnds` | src/session.cpp:60-71 | when the futures are ready every thread is over, also those whose future was never listed |
| `ToolCalls.CounterIsExact` | src/session.cpp:267-312 | in every interleaving the counter is the number of unfinished calls if and only if none got past the count down |
| `ToolCalls.OrdinaryCounterIsExact` | src/session.cpp:267-312 | for handlers and answers that return or throw `std::exception`, and launches that work, the counter is exact in every interleaving and zero once the destructor has waited |
| `ToolCalls.CancelledInSteps` | src/session.cpp:73-76 | the flag goes up exactly at the first cancellation of the run |
| `ToolCalls.CounterStaysHigh` | src/session.cpp:82-88 | a run in which the launch fails and the counter is still 1 after the destructor |
| `ToolCalls.DestructionDrains` | src/session.cpp:60-86 | after `~Session` has waited no thread can take another step; the counter is 0 if and only if no call escaped |
| `ToolCalls.AttemptsInOrder` | src/session.cpp:270-310 | at most two attempts, the second only after the first failed, each after a look of its own thread that no cancellation precedes; a finished call in a run without cancellation was answered |
| `Subscriptions.Session.On` | src/session.cpp:218-243 | a new handler goes last, and the handle holds exactly its removal |
| `Subscriptions.RemoveIf` | src/session.cpp:231-238 | erasing by id keeps the others in order |
| `Subscriptions.Session.DispatchEvent` | src/session.cpp:437-457 | every handler of the snapshot is called exactly once in registration order, even if handlers throw or change subscriptions |
| `Subscriptions.Subscription.Move` | include/copilot/session.hpp:53-56 | the removal moves; the source holds nothing |
| `Subscriptions.Subscription.Assign` | include/copilot/session.hpp:57-67 | the old removal runs, the new one moves in, self-assignment changes nothing |
| `Subscriptions.Subscription.Unsubscribe` | include/copilot/session.hpp:70-77 | the removal runs and is dropped, or throws and stays |
| `Subscriptions.Subscription.Destroy` | include/copilot/session.hpp:44-48 | a held removal runs before the handle is gone |
| `Subscriptions.RemainingWithout` | src/session.cpp:231-238 | taking one registration away leaves exactly the others, in order |
| `Subscriptions.StepKeepsInv` | include/copilot/session.hpp:39-81 | every operation keeps each registration held by one handle or freed |
| `Subscriptions.OneHolder` | include/copilot/session.hpp:39-81 | over every run a registration has one holder until its callback has returned, and none afterwards |
| `Subscriptions.CallbackReturnsOnce` | include/copilot/session.hpp:39-81 | once unheld, a callback has returned exactly once, as its last run |
| `Subscriptions.RunsOnceIfNoneThrew` | include/copilot/session.hpp:39-81 | the callback of an unheld registration ran exactly once if and only if no run of it threw |
| `Subscriptions.CallbackRunsTwice` | include/copilot/session.hpp:44-77 | a run in which a callback that throws out of `unsubscribe()` runs again at destruction |
| `Subscriptions.HandlersRemain` | src/session.cpp:218-243 | the handler list is exactly the held registrations, each with the handler it was registered with, in registration order |
| `Subscriptions.RegisteredInOrder` | src/session.cpp:218-225 | registrations are numbered in the order of the calls |
| `SessionRegistry.Client.VerifyProtocolVersion` | src/client.cpp:1146-1202 | asks again after an unknown method and once more after a report without a version; a version is agreed on if and only if the last reply is 2 or 3 |
| `SessionRegistry.Client.StartConnection` | src/client.cpp:627-701 | one of the ways to start, all or nothing towards `Connected` |
| `SessionRegistry.Client.StopConnection` | src/client.cpp:744-758 | every registered session is cancelled, then everything is let go |
| `SessionRegistry.Client.CreateSession` | src/client.cpp:1214-1323 | with others interfering between its critical sections, creating is a run of the machine: it goes on exactly when connected, makes a new session, and ends with the phase and id that the server's answer and what follows it give |
| `SessionRegistry.Client.Rekey` | src/client.cpp:1287-1295 | a server-chosen id moves the entry, otherwise nothing changes |
| `SessionRegistry.Client.Discard` | src/client.cpp:1297-1302 | a failing call erases the entry under its id |
| `SessionRegistry.Client.ResumeSession` | src/client.cpp:1326-1436 | a session is made only when connected and after the server has named it, and it is a new one with that id |
| `SessionRegistry.Client.DeleteSession` | src/client.cpp:1505-1529 | the entry is erased, as the last step, exactly when connected and the server reports success |
| `SessionRegistry.StepKeepsInv` | src/client.cpp:627-1529 | every critical section keeps the invariant |
| `SessionRegistry.Enters` | src/client.cpp:1273-1420 | registering, resuming and being renamed put the session under its id |
| `SessionRegistry.StopCancels` | src/client.cpp:744-758 | stopping raises the flag of exactly the registered sessions and lets go of them and of the connection |
| `SessionRegistry.StartEnds` | src/client.cpp:633-699 | an attempt to start ends connected or in error, and changes nothing once connected |
| `SessionRegistry.KeysAreOwnIds` | src/client.cpp:1273-1302 | at every lock release each key maps to the session whose own id it is, and no session has two entries |
| `SessionRegistry.ConnectedIsLive` | src/client.cpp:631-699 | `Connected` implies a running RPC client and a version within the range |
| `SessionRegistry.FailedIsGone` | src/client.cpp:1297-1302 | a create call that fails inside its try block leaves nothing registered |
| `SessionRegistry.NeverComesBack` | src/client.cpp:1214-1436 | a session out of the registry whose making is over never returns, whatever follows |
| `SessionRegistry.FailureLeavesBehind` | src/client.cpp:1297-1318 | a failing call leaves its session registered if and only if it fails late and still owns the entry |
| `SessionRegistry.LateFailureRegistered` | src/client.cpp:1304-1318 | a concrete run in which the session of a failed call stays registered |
| `SessionRegistry.StaysUnlessDisplaced` | src/client.cpp:744-1526 | for every step: a registered session stays registered if and only if the step is no stop and touches no entry under its id |
| `SessionRegistry.FailureDropsAnother` | src/client.cpp:1297-1420 | a run in which a failing create call removes the entry of a session resumed under its id |
| `SessionRegistry.StaysRegistered` | src/client.cpp:1273-1526 | over whole runs an undisturbed session owns the entry under its own id, also after the server renames it |
| `Process.Handle.IsRunning` | src/process_posix.cpp:512-530 | true exactly until the child has been reaped; at most one probe |
| `Process.Handle.TryWait` | src/process_posix.cpp:532-565 | exactly one waitpid on a child not yet reaped, none otherwise, and its answer as exit code, still running, or error |
| `Process.Handle.WaitBlocking` | src/process_posix.cpp:567-591 | exactly one waitpid on a child not yet reaped, none otherwise; the exit code or an error |
| `Process.Handle.Collect` | src/process_posix.cpp:540-564 | the three kinds of status become exit codes, and reaping is recorded |
| `Process.Handle.WaitFor` | src/process_posix.cpp:593-603 | polls at least once a child not yet reaped, with nothing but waits, and gives up no earlier than the deadline |
| `Process.Handle.Terminate` | src/process_posix.cpp:605-609 | signals only a child not yet reaped |
| `Process.Handle.Destroy` | src/process_posix.cpp:230-246 | a child not yet reaped is probed, sent SIGTERM and then only waited for, at least once; one that was reaped is left alone |
| `Process.StepKeepsInv` | src/process_posix.cpp:512-615 | every system call keeps the invariant |
| `Process.ReapedOnceAndLast` | src/process_posix.cpp:512-615 | over every run a call reaps if and only if it is the last one and the child is no longer watched: reaped once, never waited for or signalled again |
| `Process.ReapedIsFinal` | src/process_posix.cpp:512-615 | after reaping the exit code is the child's and nothing changes any more |
| `Process.ExitCodes` | src/process_posix.cpp:546-551 | over every run: the child's own code, 128 and its signal, or -1, and -1 until it is reaped |
| `Process.ReapedAsExited` | src/process_posix.cpp:541-553 | the status reaped is the one the child exited with |
| `Process.WaitAnswers` | src/process_posix.cpp:543-564 | each answer of waitpid comes back as its exit code, still running, or an error |
| `Process.WatchedUntilReaped` | src/process_posix.cpp:512-530 | the owner stops watching if and only if the child has been reaped |
| `Process.ZombieIsWatched` | src/process_posix.cpp:512-530 | a run after which the child has exited and still counts as running |
| `KnownValues.FromKeys` | tools/generate_protocol_types.py:150 | insertion order of first mention, each key once |
| `KnownValues.KnownStringValues` | tools/generate_protocol_types.py:142-150 | de-duplicating at every level equals de-duplicating the flat preorder list once, for every schema |
| `KnownValues.MentionsAre` | tools/generate_protocol_types.py:142-149 | the list holds exactly the strings that are a constant or option somewhere in the tree |
| `KnownValues.OrderShown` | tools/generate_protocol_types.py:143-149 | the order on a concrete schema: constant, options, anyOf, oneOf |
| `KnownValues.OntoDistinct` | tools/generate_protocol_types.py:149-150 | de-duplicating a branch first changes nothing for what it is added to |
| `KnownValues.DistinctMeans` | tools/generate_protocol_types.py:150 | the result has the same strings, none twice, ordered by first mention |

## Left out

- JsonRpcClient.StopSettlesAll: does not cover requests registered after the final swap, which the code does not settle.
- JsonRpcClient.NeverEarly: says nothing about promptness; the waits of the timeout thread ignore deadlines added while it sleeps.
- JsonRpcClient.Client.TimeoutPass: is one pass of the timeout thread; the waits between passes are not modelled.
- JsonRpcClient.RunKeepsInv: assumes one `start()` per client and fewer than 2^64 calls; a second `start()` after the stream ended is not modelled, nor a deadline beyond the largest clock value.
- MessageFramer.Framer.ReadLoop: is stated for transports whose reads do not throw mid-stream, and ends at handing a message on; `ReadMessage` covers one such failure.
- Timestamp.FitsExactly: decides by comparing texts, for times a clock shows; for zones with an offset only the local time. `ExactlyWhen` covers the rest by comparing instants.
- Timestamp.ParseTimestamp: reports an overflow instead of following it, which is undefined behaviour; the last cast to the platform's coarser clock is not modelled.
- CommandLine.RoundTrip: a NUL inside an argument, where the system would cut the line, is treated as any other character.
- RequestBridge.QuiescentBooks: assumes peers that use an id once and send no data after the end, and that the thread of an exchange can be launched.
- RequestBridge.Bridge.CancelAll: assumes that websocket closes return, and takes each as one step with raising the flag.
- RequestBridge.Bridge.HandleStart: the frames a websocket sends while it opens are not modelled.
- RequestBridge.Bridge.Deliver: websocket data is passed through and not recorded.
- RequestBridge.OutputIsGood: is about HTTP exchanges; websocket messages are passed through and not modelled.
- FfiTransport.NeverUnloadedInUse: assumes one thread at a time closes; failures to load the library, and bytes that arrive before the transport is open, are outside it.
- Subscriptions.CallbackReturnsOnce: a callback that throws in a destructor or an assignment ends the program, and such runs are not followed; handler ids do not wrap at 32 bits.
- SessionRegistry.ConnectedIsLive: does not say that the server is still there, only what the client holds.
- Process.ReapedOnceAndLast: assumes nobody else reaps the child, for instance by ignoring SIGCHLD; spawning itself is not modelled.
- Operating system calls, pipes, sockets, dynamic loading, sleeping and the protocol libraries appear only as nondeterministic answers the code branches on.
- JSON parsing and printing; messages are abstract values with the members the code looks at.
- Incoming requests and notifications of the JSON-RPC client, which touch no pending promise.
- Permission and input requests of a session, which follow the pattern of tool calls without a counter.
- Session lifecycle handlers, request builders, option copying and generated types.
- Thread scheduling, memory ordering and freedom from deadlock: lock-protected sections and atomic accesses are single steps.
- How the client finds, spawns or connects to its runtime; `StartConnection` only distinguishes how far it gets.
