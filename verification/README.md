# A model of the LSP server framework, with proofs

The repository is a C++ framework for servers of the Language Server Protocol 3.17. This project
models its core in Dafny and proves what the core is for:

- **The server under concurrency.** One read thread, a serial executor for document
  synchronisation, a pool of workers, and any number of threads that make outgoing calls. Each lock
  scope is one atomic step (`Server.dfy`), and the theorems hold in every state any interleaving
  can reach: every request is answered exactly once, the store is a serial replay of the
  notifications, cancellation reaches the right request and no other, callbacks run once, the
  server stops and its exit code says how.
- **Text synchronisation.** The byte scanner that turns positions in UTF-8, UTF-16 or UTF-32 units
  into byte offsets, measured against a client that holds Unicode scalars (section 3 of RFC 3629
  and section 2.1 of RFC 2781), and the edits built on it.
- **The semantic token builder**, against the decoder a client runs.
- **The wire framing and the file URIs**, against their inverses.

The last three are the source's loops and classes; so is the server, whose methods
(`LanguageServer.dfy`) are cut at its locks and proved to be runs of the step system, with
arbitrary steps of the other threads in every gap.

## Layout

| files | what they hold |
|---|---|
| `Options`, `Words`, `Unicode`, `Sums` | missing values, machine arithmetic, the encodings, counting lemmas |
| `Positions`, `DocumentStore`, `Convergence`, `TextSafety` | the scanner and its specification; the store; client and server agree; what edits do to any text |
| `SemanticTokens`, `StdioTransport`, `HeaderBlocks`, `Uri` | the token builder; the message framing; reading any header block; percent-coding and file URIs |
| `ThreadPool`, `WorkerPool` | the pool as a step system; the pool as an object |
| `Protocol`, `Dispatch`, `Server` | messages; what becomes of each; the server as a step system |
| `Reference` | the same read off the messages alone: which requests are refused and why, which notifications count, what becomes of the documents, what cancels what; the dispatcher is proved to agree |
| `Control`, `Duties`, `SerialReplay`, `OutgoingCalls`, `Cancellation`, `TokenMap`, `CancelCause`, `CancelEffect`, `Outcomes`, `Jobs`, `Entries` | one or two invariants each, kept by every step |
| `Soundness`, `ExactlyOnce`, `Guarantees`, `Answers`, `Shutdown` | the theorems over all reachable states |
| `LanguageServer` | the server as an object |

`dafny verify dfyconfig.toml` checks the whole project.

## What is assumed

- Locks make their scopes atomic and memory is sequentially consistent at that grain. A step is one
  lock scope, one call on a condition variable, or what a thread does between two of them that
  touches only its own data.
- The built-in lifecycle, synchronisation and cancellation handlers and the document hooks are not
  overridden; they are registered by the constructor, and the user's are added to them. User
  request and notification handlers end, with a result or a `std::exception`. `Outcome` ranges over
  all the ways a request handler can, and it may cancel its own token and make outgoing calls as it
  likes. Response callbacks and `onExit`, which run outside any `catch`, return without throwing.
- JSON is opaque. `Message` is what parsing gives (src/JsonRpc.hpp:37-60), error texts are left
  out, error codes are names. The parameters of built-in notifications come decoded; when they do
  not decode, the handler throws before it touches anything.
- Strings on the wire are byte strings; paths are POSIX byte strings; character classes are ASCII.
- `std::sort` is only assumed to return a sorted permutation.

## Where the code differs from what it says, or fails

- src/ThreadPool.hpp:33-37 says that queued tasks are abandoned at shutdown. The code drains them
  (src/ThreadPool.cpp:49-65), and so does the model (`ThreadPool.AllExitedDrained`).
- The header loop ends exactly when the blank line is still in the stream
  (`StdioTransport.HeaderLoopEnds`); at a clean end of input it does not. A header value past
  2^31 - 1 leaves the range of `int32_t`; the model reports it as an outcome of its own.
- A response callback that throws ends the process: it is queued without a `catch`
  (src/ILanguageServer.cpp:201-204) and the worker loop has none (src/ThreadPool.cpp:60-62). The
  typed overload of `sendRequest` throws on a result that does not decode
  (include/clsp/ILanguageServer.hpp:145-155), so a call that expects an integer and the response
  `{"jsonrpc":"2.0","id":1,"result":"x"}` are enough; `run` then does not return. The same holds of
  an `onExit` that throws (src/ILanguageServer.cpp:341-345). The theorems about callbacks and about
  `run` returning assume that neither happens.
- The UTF-16 column counter is 32 bits wide. In a line of more than 2^32 - 2 units it can step
  over the largest column and start again: `Positions.OverrunExists` gives such a position and
  `Positions.OffsetRefinesIndex` shows there are no others.
- Byte columns are not clamped to the line, nor to the text: the scanner is right exactly for the
  positions of `Positions.OffsetIsIndex`, and in "a\nb" column 5 of the first line is offset 5
  (`TextSafety.ByteColumnPastTheEnd`).
- An edit throws exactly if its start, in byte columns, is past the end of the text
  (`TextSafety.EditThrows`, at an input in `TextSafety.ByteColumnPastTheEnd`), and leaves the edits
  before it in place. In UTF-16 and UTF-32 no edit throws (`TextSafety.EditsNeverThrow`).
- A backward range is not swapped: its length wraps and the rest of the text is lost. The client's
  text results exactly if the range runs forward (`Convergence.SpliceConverges`, at an input in
  `Convergence.BackwardRangeDiverges`).
- `initialized` sets the server running even after `shutdown`; `shutdown` stays remembered, which
  is all the exit code depends on.

## Model

| member | source | states |
|---|---|---|
| `LanguageServer.LanguageServer.Run` | src/ILanguageServer.cpp:47-74 | whatever the other threads do, before and at every lock of `run`: it reads the input up to the first `exit`, or all of it; when it returns, the ids answered are the ids asked, as multisets, the store is what the document notifications read make of it, in order, the token map is empty, and the code is 0 exactly if `shutdown` came after `initialize` |
| `ExactlyOnce.OneReplyEach` | src/ILanguageServer.cpp:267-338 | in every reachable state a request has at most one reply; when `run` has returned it has exactly one |
| `ExactlyOnce.ResponseIds` | src/ILanguageServer.cpp:47-74 | in every reachable state the multiset of ids read equals ids answered plus ids still owed by the read thread, the queue and the workers; nothing is owed at return |
| `ExactlyOnce.NoStrayFrames` | src/ILanguageServer.cpp:291-316 | every reply is to a request, under its id, and with the code the messages before it and the registered methods call for if they refuse it; every null-id error reports a malformed message, with its code; every other frame is a call or a notification |
| `ExactlyOnce.OneReportEach` | src/ILanguageServer.cpp:63-65 | a malformed message is reported at most once, and exactly once by the time `run` returns |
| `ExactlyOnce.NotificationOnce` | src/ILanguageServer.cpp:340-375 | the handler of a registered notification read after `initialize`, `exit`, `initialized` and cancellations apart, runs once on a pool; no other does |
| `ExactlyOnce.CallConservation` | src/ILanguageServer.cpp:174-205 | while ids last, a registered call is pending or delivered and not both, was delivered the first response read under its id since registration, and its callback runs at most once, exactly once if delivered and `run` returned |
| `Guarantees.DocumentsAreReplay` | src/ILanguageServer.cpp:207-237 | in every interleaving the store is what the first so many didOpen, didChange and didClose messages read after `initialize` make of it, in read order, and what all of them make of it at return |
| `Guarantees.EncodingIsChosen` | src/ILanguageServer.cpp:102-109 | the position encoding is the one the `initialize` handler returned, and UTF-16 if it returned none |
| `Guarantees.EncodingFixed` | src/ILanguageServer.cpp:97-111 | from the first such message on, the position encoding never changes in any run |
| `Guarantees.ServerMatchesClient` | src/DocumentStore.cpp:20-40 | if those messages are the ones a well-behaved client sends for its history, the server holds, byte for byte, the documents of a point of the history, the last one at return, all well-formed UTF-8 |
| `Guarantees.DocumentsStayWellFormed` | src/DocumentStore.cpp:20-40 | in UTF-16 and UTF-32, if the texts received are well-formed, so is every document in every reachable state, whatever ranges were sent |
| `Guarantees.ExitCode` | src/ILanguageServer.cpp:73 | the exit code is 0 if and only if an `initialize` request was followed by a `shutdown` request, whatever handlers did |
| `Guarantees.StopsAtExit` | src/ILanguageServer.cpp:48 | nothing is read after `exit` |
| `Guarantees.ExitedMeansExit` | src/ILanguageServer.cpp:48 | the server has left its loop for good if and only if the last message read is `exit` |
| `Guarantees.InitializeRunsOnce` | src/ILanguageServer.cpp:96-111 | when the handler of `initialize` is entered no such request was read before |
| `Guarantees.NothingRunsBeforeInitialize` | src/ILanguageServer.cpp:291-349 | before the first `initialize` no request or notification job is made, no lifecycle handler entered, no document stored |
| `Guarantees.TokenMapExact` | src/ILanguageServer.cpp:326-337 | without id reuse the token map is exactly the requests in flight, each with its own token, none shared; it is empty at return even with reuse |
| `Guarantees.CancelledNeverRuns` | src/ILanguageServer.cpp:132-152 | from the step that processes a cancellation on, if its request is accepted and not yet checked: in every continuation the handler is never entered and every answer is RequestCancelled |
| `Guarantees.CancellationHonoured` | src/ILanguageServer.cpp:132-152 | a cancellation the read thread has dealt with, for an integer or a string id: unless the worker looked before, the flag of the request is up for good, its handler is never entered and every answer to it is RequestCancelled |
| `Guarantees.VerdictExact` | src/ILanguageServer.cpp:272-278 | without id reuse a worker refuses a request if and only if a cancellation of it had been dealt with when the worker looked |
| `Guarantees.RefusedWasCancelled` | src/ILanguageServer.cpp:272-278 | a worker refuses a request only if a cancellation of it, sent after it, had been dealt with when the worker looked, even with reused ids; it enters the handler if and only if it does not refuse |
| `Guarantees.FlagRaisedByOwnId` | include/clsp/ILanguageServer.hpp:44-59 | in every reachable state a flag goes up only through a cancellation for its own request's id or by that request's worker |
| `Guarantees.LastUnderIdCancelled` | src/ILanguageServer.cpp:146-150 | even with reused ids, the flag a cancellation raises is that of the last request accepted under its id |
| `Guarantees.FirstAnswerReaches` | src/ILanguageServer.cpp:185-205 | the first response to a call whose frame went out is handed to that call's callback |
| `Answers.RefusalTable` | src/ILanguageServer.cpp:291-316 | any answer to a request: ServerNotInitialized to all but `initialize` before it, InvalidRequest after `shutdown` until `initialized`, and to a second `initialize`, MethodNotFound to a method that is not registered |
| `Answers.OthersAreRun` | src/ILanguageServer.cpp:318-337 | every other request is run: when `run` has returned a worker has judged it, or it belonged to the lifecycle, and its handler has ended unless it was refused as cancelled |
| `Answers.AnswerContent` | src/ILanguageServer.cpp:272-288 | any answer to a request whose handler ended is its result, RequestCancelled if it threw that, the code it threw, or InternalError; any other answer is the refusal of the table or that of a cancelled request |
| `Answers.NotificationsPlaced` | src/ILanguageServer.cpp:364-374 | the serial executor is given notifications about documents and nothing else, the pool none of them |
| `Answers.CallbackExactly` | src/ILanguageServer.cpp:191-204 | when `run` has returned, the callback of a registered call has run once if a response under its id was read since, and not otherwise |
| `Answers.CallbackPayload` | src/ILanguageServer.cpp:194-204 | a callback is given the payload of a response to its own call |
| `Shutdown.NotStuck` | src/ILanguageServer.cpp:69-71 | no deadlock: until a stopping `run` returns, some thread can take a step that is progress |
| `Shutdown.StepsAreBounded` | src/ThreadPool.cpp:33-47 | in any interleaving the progress steps of a stopping server are bounded by the work left plus 6 for each spurious wakeup |
| `Shutdown.AnyChoiceReturns` | src/ILanguageServer.cpp:69-73 | whatever progress steps are chosen, there are no more of them than the work left, and when none is left to take `run` has returned |
| `Shutdown.RunReturns` | src/ILanguageServer.cpp:69-73 | and such a run exists from every reachable stopping state |
| `Soundness.SoundStep` | src/ILanguageServer.cpp:47-375 | every step of every thread keeps all the invariants |
| `Soundness.ReachableSound` | src/ILanguageServer.cpp:47-375 | so they hold in every reachable state |
| `Control.OrderlyStep` | src/ILanguageServer.cpp:291-375 | kept: lifecycle and shutdown flag are functions of the trace, jobs are those their messages call for, accepted in read order, pools stop in order |
| `Duties.BalancedStep` | src/ILanguageServer.cpp:267-375 | kept: duties taken on = duties discharged + duties owed, as multisets |
| `SerialReplay.ReplayedStep` | src/ILanguageServer.cpp:207-237 | kept: queued synchronisation jobs are those of the trace and the store is the replay of those run |
| `SerialReplay.EncodingSettled` | src/ILanguageServer.cpp:97-111 | no step changes the encoding once a notification counts |
| `Outcomes.EndedOkStep` | src/ILanguageServer.cpp:267-289 | kept: the reply to a request is what its handler ended with, wherever the request is |
| `Outcomes.EncodingOkStep` | src/ILanguageServer.cpp:102-109 | kept: the encoding is the one chosen |
| `Jobs.PlacedOkStep` | src/ILanguageServer.cpp:364-374 | kept: each notification is on the executor it belongs to |
| `Jobs.CallbacksFitStep` | src/ILanguageServer.cpp:185-205 | kept: each callback carries the payload of a response to its own call |
| `OutgoingCalls.CallsOkStep` | src/ILanguageServer.cpp:174-205 | kept: ids are counted, frames follow registration, pending and delivered callbacks partition the registered calls |
| `OutgoingCalls.IdsDistinct` | src/ILanguageServer.cpp:177 | 32-bit ids in use are distinct if and only if at most 2^32 calls were made |
| `OutgoingCalls.FirstAnswerDelivered` | src/ILanguageServer.cpp:191-204 | a first answer finds its callback, since registration precedes sending |
| `Cancellation.TokensOwnedStep` | src/ILanguageServer.cpp:326-331 | kept: each token was made for one request, whose job carries it |
| `Cancellation.JudgedStep` | src/ILanguageServer.cpp:272-288 | kept: a worker's verdict decides its phase and its reply |
| `Cancellation.DoomedStep` | src/ILanguageServer.cpp:132-152 | a request cancelled before the check stays so |
| `TokenMap.MapOkStep` | src/ILanguageServer.cpp:326-337 | kept, even with reused ids: each map entry is held by a request in flight; without reuse each request in flight is listed |
| `TokenMap.MapExact` | src/ILanguageServer.cpp:326-337 | hence the domain and the values of the map, and no aliasing |
| `TokenMap.CancelReaches` | src/ILanguageServer.cpp:146-150 | a cancellation by id raises the flag of the request with that id |
| `TokenMap.RaisedByOwnId` | src/ILanguageServer.cpp:146-150 | and of no other |
| `CancelCause.CausedStep` | src/ILanguageServer.cpp:132-152 | kept: a refused request had been cancelled by the client when its worker looked, a judged one not refused was entered |
| `CancelEffect.EffectiveStep` | src/ILanguageServer.cpp:132-152 | kept: every cancellation dealt with has raised the flag of its request or came after the worker looked |
| `Entries.NewestStep` | src/ILanguageServer.cpp:326-330 | kept: a token map entry is the last token made for its id |
| `Entries.PendingStays` | src/ILanguageServer.cpp:178-204 | a registered callback stays until a response under its id is looked up, whatever calls are made under the same id |
| `Reference.StateReference` | src/ILanguageServer.cpp:96-129 | the lifecycle state, read off the messages: exited if the last is `exit`, uninitialised while `initialize` was not asked, shutting down after `shutdown` until `initialized` |
| `Reference.RequestTable` | src/ILanguageServer.cpp:291-338 | the dispatcher refuses a request, runs it at once or queues it, as the messages before it and the registered methods say |
| `Reference.NoticeTable` | src/ILanguageServer.cpp:340-375 | likewise it queues a notification, on the executor it belongs to, or takes it as a cancellation |
| `Reference.ReplayIsNotices` | src/ILanguageServer.cpp:207-237 | the operations the store is given have the effect of the messages |
| `Reference.NoticesOfClient` | src/ILanguageServer.cpp:207-227 | the messages a client sends for what it does to its documents have that effect |
| `Dispatch.UninitializedTrace` | src/ILanguageServer.cpp:292-349 | a trace leaves the server uninitialised exactly while it has no `initialize` request |
| `Dispatch.ShutdownTrace` | src/ILanguageServer.cpp:114-118 | the flag of a trace says whether `shutdown` came after `initialize` |
| `Dispatch.InitializeOnce` | src/ILanguageServer.cpp:291-309 | a request is run as `initialize` exactly if it is the first such; before it everything is refused, dropped, `exit` or a response |
| `Dispatch.IdleOps` | src/ILanguageServer.cpp:347-349 | no synchronisation notification counts before `initialize` |
| `LanguageServer.LanguageServer.constructor` | src/ILanguageServer.cpp:18-30 | the object starts in the initial state, the built-in handlers registered beside the user's |
| `LanguageServer.LanguageServer.HandleRequest` | src/ILanguageServer.cpp:291-338 | the request is read and dealt with as a run of the step system that reads nothing else |
| `LanguageServer.LanguageServer.HandleNotification` | src/ILanguageServer.cpp:340-375 | likewise for a notification |
| `LanguageServer.LanguageServer.HandleResponse` | src/ILanguageServer.cpp:185-205 | likewise for a response |
| `LanguageServer.LanguageServer.ReportError` | src/ILanguageServer.cpp:63-65 | likewise for a malformed message |
| `LanguageServer.LanguageServer.SendRequest` | src/ILanguageServer.cpp:174-183 | from any thread, with every thread free to step in between: the call is numbered, registered and only then sent; its frame is the last sent |
| `LanguageServer.LanguageServer.SendNotification` | src/ILanguageServer.cpp:159-162 | the notification, and nothing else, is sent |
| `LanguageServer.LanguageServer.EnterToken` | src/ILanguageServer.cpp:326-330 | a fresh token, not raised, is stored under the id, over any older entry |
| `LanguageServer.LanguageServer.RaiseFlag` | src/ILanguageServer.cpp:146-150 | raises the flag of the token under the id, if there is one |
| `LanguageServer.LanguageServer.FindCallback` | src/ILanguageServer.cpp:191-200 | takes out the callback registered under the id, if there is one |
| `LanguageServer.LanguageServer.CheckToken` | src/ILanguageServer.cpp:272-278 | the worker refuses a request whose flag is up and enters the handler of the others |
| `LanguageServer.LanguageServer.EndHandler` | src/ILanguageServer.cpp:278-288 | each way a handler can end has its reply, and is remembered |
| `LanguageServer.LanguageServer.EraseToken` | src/ILanguageServer.cpp:335-336 | erases the entry under the id |
| `LanguageServer.LanguageServer.RunSync` | src/ILanguageServer.cpp:207-237 | the synchronisation handlers, through the store object, apply the notification's operation |
| `LanguageServer.LanguageServer.RegisterCallback` | src/ILanguageServer.cpp:178-181 | emplace: an entry that is there stays |
| `LanguageServer.LanguageServer.JoinSyncExecutor` | src/ILanguageServer.cpp:70 | the wait for the serial executor ends with its worker returned |
| `LanguageServer.LanguageServer.JoinWorkerPool` | src/ILanguageServer.cpp:71 | the wait for the pool ends with all workers returned |
| `ThreadPool.InvStep` | src/ThreadPool.cpp:22-65 | every step of every thread keeps conservation, order and no lost wakeup |
| `ThreadPool.NoLostWakeupStep` | src/ThreadPool.cpp:22-65 | kept: while a worker sleeps, queued tasks <= pending notifications + awake workers; after stopping, `notify_all` is still to come |
| `ThreadPool.ReachableOrder` | src/ThreadPool.cpp:5-65 | in every reachable state accepted = finished + running + queued, tasks start in submit order, and one worker runs them strictly in that order |
| `ThreadPool.WorkIsBounded` | src/ThreadPool.cpp:49-65 | the work steps of any run without submissions are bounded by the measure plus the spurious wakeups |
| `ThreadPool.QuiescentDrained` | src/ThreadPool.cpp:54-57 | a pool with nothing left to do has run every task, and if stopping all workers have returned |
| `ThreadPool.AllExitedDrained` | src/ThreadPool.cpp:33-47 | when the workers have returned every accepted task has been run, in submit order on one worker |
| `WorkerPool.ThreadPool.Submit` | src/ThreadPool.cpp:22-31 | a task is accepted next and a notification made, or dropped unchanged if the pool is stopping |
| `WorkerPool.ThreadPool.Shutdown` | src/ThreadPool.cpp:33-47 | the first call returns with every accepted task run and all workers returned; later calls change nothing |
| `WorkerPool.ThreadPool.WaitOrTake` | src/ThreadPool.cpp:52-60 | with the lock a worker sleeps, returns, or takes the first task |
| `Positions.LeadByteMasks` | src/DocumentStore.cpp:54-62 | the masks pick out the ranges used |
| `Positions.ReadScalar` | src/DocumentStore.cpp:48-72 | a decoding step on encoded text reads one scalar, its bytes and its UTF-16 units |
| `Positions.IndexUnique` | src/DocumentStore.cpp:76-104 | the client's index of a position is the only one that meets its definition: shortest prefix of the line with enough units, or the line's end |
| `Positions.OffsetRefinesIndex` | src/DocumentStore.cpp:80-103 | in UTF-16 and UTF-32 the offset is the client's index in bytes if and only if the 32-bit counter does not come round |
| `Positions.NoOverrun` | src/DocumentStore.cpp:90-102 | it does not in UTF-32, below the largest column, or in texts under 2^32 - 1 bytes |
| `Positions.OverrunExists` | src/DocumentStore.cpp:96-98 | it does for some text and position |
| `Positions.OffsetIsIndex` | src/DocumentStore.cpp:76-104 | in every encoding: exactly for the positions the scanner gets right, in UTF-8 those on a boundary in the line |
| `Positions.IndexMonotone` | src/DocumentStore.cpp:76-104 | indices are monotone in the lexicographic order of positions |
| `Positions.OffsetsOrdered` | src/DocumentStore.cpp:30-32 | so are the offsets of positions the scanner gets right, in every encoding, which stay in the text, on scalar boundaries |
| `Positions.OffsetOnBoundary` | src/DocumentStore.cpp:80-103 | in UTF-16 and UTF-32 every position, whether in the text or not and even if the counter comes round, leads to a scalar boundary in its line |
| `Positions.OffsetsMonotone` | src/DocumentStore.cpp:30-32 | in UTF-16 and UTF-32 the offsets of any two positions follow their order and stay in the text: the length of a forward range never underflows |
| `Positions.OffsetRoundTrip` | src/DocumentStore.cpp:76-104 | every scalar boundary has a canonical position that maps back to it, in each encoding |
| `Positions.AsciiAgreement` | src/DocumentStore.cpp:86-101 | on ASCII texts the encodings agree on in-line positions |
| `DocumentStore.DocumentStore.DecodeUtf8` | src/DocumentStore.cpp:48-72 | bytes and units of the character at an offset, cut at the end of the text |
| `DocumentStore.DocumentStore.PositionToOffset` | src/DocumentStore.cpp:76-104 | the two loops compute the offset the lemmas above are about |
| `DocumentStore.DocumentStore.OpenDocument` | src/DocumentStore.cpp:12-18 | inserts or replaces the document |
| `DocumentStore.DocumentStore.ApplyChange` | src/DocumentStore.cpp:20-40 | applies the edits in order in place; tells whether the document was open and every edit in range; an edit that throws keeps the earlier ones and the version |
| `DocumentStore.DocumentStore.CloseDocument` | src/DocumentStore.cpp:106-109 | removes the document; tells whether it was there |
| `Convergence.EditConverges` | src/DocumentStore.cpp:28-37 | one edit: the bytes left are those of the client's edited scalars |
| `Convergence.EditsConverge` | src/DocumentStore.cpp:20-40 | any list of edits, each placed in the text the one before left |
| `Convergence.ReplayConverges` | src/DocumentStore.cpp:12-40 | any run of notifications over any number of documents |
| `Convergence.ReplayWellFormed` | src/DocumentStore.cpp:12-40 | every document stays well-formed UTF-8 |
| `Convergence.BackwardRangeTruncates` | src/DocumentStore.cpp:32 | a backward range loses the rest of the text |
| `Convergence.SpliceConverges` | src/DocumentStore.cpp:30-32 | at positions the scanner gets right an edit leaves the client's text if and only if the range runs forward |
| `Convergence.BackwardRangeDiverges` | src/DocumentStore.cpp:30-32 | in "abc" a deletion from character 2 back to 1 leaves "ab", where the client has "abbc" |
| `TextSafety.EditThrows` | src/DocumentStore.cpp:30-32 | for any bytes, an edit throws if and only if its start, in byte columns, is past the end of the text |
| `TextSafety.EditsNeverThrow` | src/DocumentStore.cpp:28-37 | in UTF-16 and UTF-32 every list of edits goes through, for any bytes and any ranges |
| `TextSafety.EditsConcat` | src/DocumentStore.cpp:28-37 | a list of edits is its parts one after the other, up to the first that throws |
| `TextSafety.ThrowKeepsEarlierEdits` | src/DocumentStore.cpp:28-38 | an edit that throws leaves the edits before it, the version as it was and the other documents alone; those after it are not done |
| `TextSafety.ByteColumnPastTheEnd` | src/DocumentStore.cpp:86-88 | an input at which a byte column leaves its line and the text, and the edit throws |
| `TextSafety.EditKeepsWellFormed` | src/DocumentStore.cpp:28-37 | in UTF-16 and UTF-32 an edit with any range, forward, backward or out of the text, keeps well-formed text well-formed |
| `TextSafety.ReplayKeepsWellFormed` | src/DocumentStore.cpp:12-40 | so does every run of notifications that carry well-formed texts, for every document, as long as no text outgrows 64-bit sizes |
| `TextSafety.SmallRunsFit` | src/DocumentStore.cpp:28-37 | none does while fewer than 2^64 bytes of text have been received |
| `SemanticTokens.SemanticTokensBuilder.Push` | include/clsp/protocol/SemanticTokens.hpp:151-157 | adds the token unless its length is zero |
| `SemanticTokens.SemanticTokensBuilder.Build` | include/clsp/protocol/SemanticTokens.hpp:165-193 | the data decodes to a sorted permutation of the tokens pushed since the last clear; five numbers each |
| `SemanticTokens.SemanticTokensBuilder.Emit` | include/clsp/protocol/SemanticTokens.hpp:173-192 | the data of sorted tokens decodes to those very tokens, so no subtraction wraps |
| `SemanticTokens.DecodeInjective` | include/clsp/protocol/SemanticTokens.hpp:179-191 | different data decode to different tokens |
| `SemanticTokens.DecodeSorted` | include/clsp/protocol/SemanticTokens.hpp:165-171 | whatever is decoded is in document order |
| `StdioTransport.DecimalPrint` | src/StdioTransport.cpp:72-75 | printing a length and reading its digits are inverse |
| `StdioTransport.ScanDigitsAccepts` | src/StdioTransport.cpp:45-51 | a header value is accepted if and only if it is all digits and fits 31 bits, and then read right |
| `StdioTransport.ReceiveFrame` | src/StdioTransport.cpp:56-75 | reading a frame gives its body and leaves what follows |
| `StdioTransport.FrameStream` | src/StdioTransport.cpp:56-75 | reading back any sequence of frames gives the bodies in order and uses the stream up |
| `StdioTransport.HeaderLoopEnds` | src/StdioTransport.cpp:16-26 | the header loop ends if and only if the blank line is still in the stream |
| `HeaderBlocks.BlankFound` | src/StdioTransport.cpp:16-26 | reading stops at the blank line after the last of any header lines |
| `HeaderBlocks.FirstKeyDecides` | src/StdioTransport.cpp:28-43 | the first line that holds the key gives the length, in any place among the others, by the text from the key to the end of the line |
| `HeaderBlocks.ReceiveBlock` | src/StdioTransport.cpp:28-70 | any header block with the key: the body is the bytes announced and the rest is left if the value is a decimal within 31 bits and the bytes are there; otherwise no message comes out |
| `HeaderBlocks.ReceiveWithoutKey` | src/StdioTransport.cpp:28-32 | a header block without the key gives no message |
| `HeaderBlocks.ReceiveAmongHeaders` | src/StdioTransport.cpp:28-70 | one Content-Length line with any other headers before and after it: the body and the rest come out |
| `StdioTransport.StdioTransport.ReadHeaders` | src/StdioTransport.cpp:8-54 | reads as far as the first blank line and gives the length announced |
| `StdioTransport.StdioTransport.ReadMessage` | src/StdioTransport.cpp:56-70 | reads a message, or fails, exactly as the specification that `HeaderBlocks` is about |
| `StdioTransport.StdioTransport.SendMessage` | src/StdioTransport.cpp:72-75 | appends the body's frame: the output is always the frames of the bodies, in the order the send lock was taken |
| `Uri.PercentEncode` | src/Uri.cpp:44-58 | the loop computes the encoding |
| `Uri.PercentDecode` | src/Uri.cpp:60-76 | the loop computes the decoding |
| `Uri.FromPath` | src/Uri.cpp:78-87 | the URI of a path |
| `Uri.ToPath` | src/Uri.cpp:89-100 | the path of a URI, empty for other schemes |
| `Uri.PathOfUri` | src/Uri.cpp:89-100 | no path for another scheme; for "file://" what follows it, decoded, without the slash in front of a drive |
| `Uri.PassThroughTable` | src/Uri.cpp:10-29 | the characters that stand for themselves: letters, digits, "-._~", "!$&'()*+,;=", "/", ":" and "@" |
| `Uri.EscapeTable` | src/Uri.cpp:44-58 | any other byte becomes a percent sign and two upper-case digits |
| `Uri.DecodeTriple` | src/Uri.cpp:60-76 | a percent sign and two digits of either case become one byte |
| `Uri.DecodeOther` | src/Uri.cpp:60-76 | a percent sign that two digits do not follow is kept, like any other byte |
| `Uri.DecodeEncode` | src/Uri.cpp:44-76 | decoding undoes encoding, for all bytes |
| `Uri.EncodeInjective` | src/Uri.cpp:44-58 | encoding is injective |
| `Uri.EncoderRange` | src/Uri.cpp:48-56 | the encoder's outputs are exactly the strings of pass-through characters and upper-case triples of other bytes |
| `Uri.DecodedShorter` | src/Uri.cpp:60-76 | decoding never lengthens |
| `Uri.PathRoundTrip` | src/Uri.cpp:78-100 | a path comes back from its URI if and only if it is empty, starts with a drive, or with a slash no drive follows |
| `Uri.UriIsCanonical` | src/Uri.cpp:78-100 | path to URI to path to URI is path to URI |

## Left out

- Unicode.Encode: text that is not well-formed UTF-8 has no client text to compare with; the scanner is modelled on all bytes, the agreement is stated for encoded texts.
- SemanticTokens.SemanticTokensBuilder.Sort: the algorithm of `std::sort`; any sorted permutation will do for the claims made.
- StdioTransport.StdioTransport.ReadHeaders: requires the blank line in the stream, without which the loop does not end; stream buffering, flushing and the eof and fail bits apart are not modelled.
- Uri.FromPath: Windows path normalisation and locales.
- LanguageServer.LanguageServer.EnterToken: a token is a number and its shared flag a place in one sequence, so copies of a token share the flag by number rather than by pointer.
- LanguageServer.LanguageServer.Push: `notify_one` after a submit is a later step of the pool's own, so it may come later in the model than in the code; every claim about the server covers the longer delay.
- LanguageServer.LanguageServer.RunTask: a response callback that throws ends the process in the source; the model assumes that callbacks, and `onExit`, return.
- LanguageServer.LanguageServer.Run: reads from a sequence of parsed messages; the destructor, which stops pools that were not stopped, is not modelled.
- WorkerPool.ThreadPool.Shutdown: waiting is a loop in which other threads take steps, finitely many of which are not progress (spurious wakeups); a schedule that starves the workers for ever is not considered.
- `SemanticTokensBuilder` beyond push, clear and build, and `defaultWorkerCount`, would only add accessors; a worker count of 0 stands for one worker.
- JSON text, the converters of protocol types, capability structs, completion, hover and diagnostics types: field copying.
- The C++ memory model below lock grain, raw pointers returned by the store, `std::terminate` on exceptions that are not `std::exception`, allocation failure.
