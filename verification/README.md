# Verification of the cewserver core

A Dafny model of the parts of the cew web server in which something can go wrong between operations: the threaded
logger, the master/worker/client protocol, the HTTP request matcher and response builder, and the settings loader.
`dafny verify dfyconfig.toml` checks everything.

## The models

**The logger** (the `Log*` modules) is a machine of atomic steps (`LogModel`). One step is one statement of
`src/cew_logger.c` that touches shared memory: every flag read of the gate, the unlocked bound check, lock, insertion,
increment and unlock of a producer; the cancellation window, trylock, decision, head read, removal, write, flush,
close and subtraction of the writer; every statement of `logger_init` and `logger_destroy`. Any number of threads take
their steps in any order. Reading an empty queue, freeing another entry than the one removed and inserting through a
dangling tail pointer are not excluded by preconditions: they set a fault flag, and that no run sets it is proved.
`exit()` in the writer halts the machine, the stream may hand part of its buffer to the kernel at any time, and lock
attempts and initialisation may fail.

A run is only assumed to have memory for its messages and to be what the source leaves to its callers
(`LogModel.Disciplined`): no thread is on its way into the queue when `logger_destroy` begins to work on it without
owning the mutex, and none is, or has been, when `logger_init` gives a session up because its writer cannot be
created. `LogLimits` proves that both conditions are exact: in every reachable state no continuation does damage if
and only if the condition holds. `LogWitness` has runs to the states in question, for every choice of settings.

`LogInvariant.Core` and `LogHistory.History` are the invariant. `LogSteps` proves it statement by statement,
`LogHistory.RunKeeps` over runs. `LogTheorems`, `LogCalls`, `LogBounds`, `LogRounds`, `LogFlush`, `LogTeardown`,
`LogFork` and `LogOrphan` draw the conclusions about reachable states and runs; `LogPaths` composes runs. `TailQueue`
has the same queue as a linked list in explicit memory, with the drain loop and the freeing traversal as loops, and
refines the machine's insertion, removal and traversal.

**Workers and connections.** `WorkerTable` is the slot array of the master with init, route and destroy, as a class
over an array and as a function on values about which the properties are proved; `WorkerEffects` states what init and
destroy do on the fields of the records. `RoundRobin` is the 32-bit index arithmetic. `Connections` is a distributed
machine: accept and route in the master, one FIFO channel per worker, registration, event collection and callbacks in
the workers. `ClientLoop` has the callbacks in place and proves that each is the corresponding step of `Connections`.

**HTTP.** `HttpRequest` gives the regular expression its POSIX meaning and proves what it accepts. `HttpMessage` is an
independent reader after sections 2.1, 6.2 and 6.3 of RFC 9112. `HttpResponse` builds the responses as the server does
and reads them back with that reader. `HttpPath` resolves the path of a request, `HttpContent` states what a client
gets in the literal names of files, types and fields.

**Settings.** `Settings` has the loader with its nested loops, in-place lower-casing and table search, and the
specification that for every setting the last matching pair wins. The strings it allocates, the log file's name among
them, are kept by address. `Text` has what C's string functions do.

Where code and comments disagree the code is followed: `parse_option` returns `SET_NOMAP` for a string setting
although it stored the value; a `txt` file has the type `image/txt`; a file without a known extension gets an empty
response.

## Model

| member | source | states |
|---|---|---|
| LogHistory.StepKeeps | src/cew_logger.c:66-444 | every step of every thread, the writer and the controller keeps the whole interleaving invariant, in every state that satisfies it |
| LogSteps.StepKeepsCore | src/cew_logger.c:66-444 | the part of the invariant about mutex, flags, life cycle, counter, batch, file and freed memory is kept by every statement |
| LogHistory.RunKeeps | src/cew_logger.c:66-444 | the invariant holds after every run |
| LogTheorems.NothingLostOrReordered | src/cew_logger.c:118-166 | in every reachable state the accepted messages are the file, the stream's buffer, the message in the writer's hands and the queue, in this order, without duplicates, and each thread's part is its successful calls in program order |
| LogTheorems.CounterExact | src/cew_logger.c:97-183 | the counter equals the queue length plus what the open batch has removed, minus an entry inserted but not yet counted, and is never negative |
| LogTheorems.NoFault | src/cew_logger.c:118-138 | a step of a run dereferences NULL, frees another entry than the one removed, or inserts through a dangling tail pointer if and only if it is a call for which malloc fails |
| LogCalls.CallsAreSettled | src/cew_logger.c:195-324 | over every run and across sessions, every call of log_msg that has returned gave exactly one answer; it is success exactly if its message was inserted, once, and that exactly if the call read, in this order, that the logger is initialised, the program not terminating, the logger not shutting down, the level admitted and the queue not over its size, and then got the mutex; any other call ended with a read that refused it or with a failed lock |
| LogCalls.NothingAboveLevel | src/cew_logger.c:267-270 | no message above the level in force is accepted or written, in this or any earlier session |
| LogCalls.AllocationsInOnePlace | src/cew_logger.c:222-247 | every entry allocated in a session is in exactly one place: accepted once, freed once by a producer whose lock failed, or with the one thread that is still to insert it |
| LogCalls.EveryCallCanReturn | src/cew_logger.c:195-347 | from every reachable state of a process with its own writer, every call of log_msg or logger_flush can return |
| LogRounds.HeadReadIsSafe | src/cew_logger.c:118-138 | the unlocked head read finds an entry, and whatever everyone else does before and after the writer gets the mutex, exactly that entry is removed and freed |
| LogTheorems.ZeroMeansDurable | src/cew_logger.c:158-183 | while a session is live, a zero counter means that no batch is open, no file is open and everything counted is in the file |
| LogTheorems.ZeroMeansCallsDurable | src/cew_logger.c:227-247 | when the counter is zero, all messages of calls that returned success are in the file, in each thread's order |
| LogTheorems.FlushBreakIsDurable | src/cew_logger.c:330-347 | a flush that leaves by its break guarantees that everything counted before that read is in the file and stays there to the end of the session |
| LogFlush.FlushReturnsExactly | src/cew_logger.c:330-347 | over every run, a thread that called logger_flush sets the flag first and has returned exactly if one of its first 20 polls read zero or it is past its 20 polls |
| LogTheorems.RunAppends | src/cew_logger.c:110-166 | within a session the file only grows at its end |
| LogTheorems.CancelIsSafe | src/cew_logger.c:72-106 | cancellation can only take effect where the writer has no mutex, no open file, no message in hand, nothing to free, and the counter is the queue length less an entry about to be counted |
| LogTeardown.DestroyCompletes | src/cew_logger.c:400-444 | from every reachable state in which destroy has begun, with no assumption on the writer: at most three steps of a producer that has the mutex, and none if the writer is outside a batch, then steps of writer and controller alone end the poll, the cancellation and the join; if nobody is on the way into the queue they end destroy |
| LogTeardown.GoToWindow | src/cew_logger.c:72-106 | outside a batch the writer gets back to the window where it can be cancelled without anyone's help, also when the mutex is busy |
| LogTeardown.DestroyPollsExactly | src/cew_logger.c:407-408 | over every run, the flush of destroy sets the flag first and has stopped polling exactly if one of its first 20 polls read zero or it is past its 20 polls |
| LogTeardown.DestroyFlushDrainsExactly | src/cew_logger.c:407-408 | with only waiting threads, the flush of destroy can empty the queue under exactly the condition under which logger_flush can |
| LogTheorems.DestroyAccountsForAll | src/cew_logger.c:400-444 | after destroy, accepted is written followed by discarded, and every entry and every string was freed exactly once |
| LogTheorems.SessionsAreSeparate | src/cew_logger.c:376-389 | the same of all earlier sessions, and none of their lines is accepted or written in the current one |
| LogTheorems.SessionStartsEmpty | src/cew_logger.c:376-381 | init starts with an empty queue, a zero counter, a closed file and no writer, after a session that is completely accounted for, wherever the threads are |
| LogBounds.CounterBound | src/cew_logger.c:195-247 | with queue size Q and at most P threads inside the enqueue at once, the counter never exceeds Q + P |
| LogBounds.StepBounded | src/cew_logger.c:195-247 | the stronger invariant behind it: counter plus threads past the check stays within Q + P |
| LogBounds.ShutdownAdmitsOnlyPending | src/cew_logger.c:250-273 | once the shutdown flag is set, no more messages are enqueued before the next init than there were threads past the gate, and none if there were none |
| LogRounds.RoundWritesSnapshot | src/cew_logger.c:97-183 | a round that decides to write appends exactly the queue it saw, whatever arrives meanwhile; what arrived is what stays queued and counted |
| LogRounds.RoundShrinks | src/cew_logger.c:109-183 | within a round each writer step lowers a measure that nobody else changes, so the round ends |
| LogRounds.HolderReleases | src/cew_logger.c:227-244 | a producer that has the mutex releases it within three of its own steps, all of them enabled |
| LogRounds.DecidedRoundDrains | src/cew_logger.c:97-183 | a round decided on can be completed by the writer alone, whoever waits, and leaves a zero counter, an empty queue and everything in the file |
| LogRounds.NextDecision | src/cew_logger.c:66-183 | from every state with a live writer in which no producer has the mutex, the writer alone can go on to its next decision, and finds there exactly what arrived after the snapshot of its open batch |
| LogRounds.StreamingDrains | src/cew_logger.c:97-183 | with no bulk threshold, from every reachable state with a live writer: at most three steps of a producer that has the mutex, then steps of the writer alone, empty the queue and bring everything accepted into the file |
| LogFlush.FlushDrainsExactly | src/cew_logger.c:330-347 | from the statement that sets the flag, with the other threads idle or waiting: the writer can empty the queue if and only if it is not in a batch that has yet to clear the flag while between one and bulkWrite messages arrived after that batch's snapshot; in that case no continuation of writer and waiting threads takes any of these messages out of the queue |
| LogFlush.DecisionSettles | src/cew_logger.c:97-101 | at the writer's decision, with only waiting threads: if the flag is set or the threshold is passed the round can write everything, otherwise no continuation changes the queue |
| LogWitness.MissedFlush | src/cew_logger.c:169-178 | for every positive threshold a flush that comes too late is reachable |
| LogWitness.FlagAboutToBeCleared | src/cew_logger.c:175 | for every positive threshold there is a reachable state with the flag set, a message queued and the writer about to clear the flag |
| LogLimits.DestroyIsSafeExactly | src/cew_logger.c:426-442 | in every reachable state at the forced unlock: no continuation uses freed memory or NULL, loses a message or takes the mutex from the writer of a later session, if and only if every thread past the gate is about to be turned away by its level |
| LogLimits.EnteringDamages | src/cew_logger.c:195-247 | for each other position past the gate, a continuation that does damage: the message goes into freed memory or is lost, a late increment makes the next writer read NULL, a late unlock takes its mutex |
| LogLimits.FailedInitIsSafeExactly | src/cew_logger.c:384-387 | when the writer cannot be created: no continuation does damage if and only if nothing was inserted since the reset and no thread is on its way into the queue |
| LogWitness.LateWithEmptyQueue | src/cew_logger.c:400-426 | a reachable forced unlock with a thread waiting for the mutex and an empty queue, for all settings |
| LogWitness.LateWithFullQueue | src/cew_logger.c:400-426 | the same with a queue that is not empty |
| LogWitness.LateInside | src/cew_logger.c:400-426 | the same with a thread that has yet to count its entry, or to release the mutex |
| LogWitness.LateInGate | src/cew_logger.c:356-387 | a reachable failure of init with a thread that read the flags of the last session and is let through by those of the new one |
| LogFork.ForkInheritsNothing | src/cew_worker.c:354-370 | if only the main thread logs and the flush left by its break, then until the fork there is no queued, counted or buffered line and no open file; the child's state satisfies the invariant; its mutex is free exactly if the writer is not inside its polling section |
| LogFork.ChildRepeatsNoMasterLine | src/cew_worker.c:198-202 | from such a fork on, no session of the child ever writes a line the master accepted |
| LogFork.NoLineWrittenTwice | src/cew_worker.c:354-370 | both together, from the flush to the end of any run of the child: each master line is in the master's file and never in the child's |
| LogFork.ChildWritesInheritedBuffer | src/cew_logger.c:415-418 | for a fork in any state: closing the inherited stream in the child writes exactly what the stream's buffer held |
| LogOrphan.ChildCallGoesThroughExactly | src/cew_worker.c:364-367 | the first admitted log call of a child, before it destroys the inherited logger, can insert its message if and only if the master's writer did not own the mutex at the fork; otherwise no run up to the forced unlock gives the mutex to anyone or inserts anything |
| LogWitness.ForkWithMutexHeld | src/cew_worker.c:354-370 | for all settings, a reachable fork after a flush that left by its break, with the mutex held by the writer that has just subtracted |
| LogOrphan.ChildFreesInheritedQueue | src/cew_worker.c:198-202 | for a fork in any state with one idle thread: the child's destroy discards and frees the inherited queue and the child's own messages, in order and once each, writes the inherited stream's lines, and of the strings allocated at the fork leaks exactly the one in the hands of the master's writer |
| TailQueue.LogQueue.InsertTail | src/cew_logger.c:222-239 | appends the entry at the end of the linked list, keeps the list well linked and free of leaks, and is the insertion of the step machine |
| TailQueue.LogQueue.RemoveHead | src/cew_logger.c:126-138 | removes and frees the entry read before, keeps its string for the writer, and is the removal of the step machine |
| TailQueue.LogQueue.DrainOne | src/cew_logger.c:118-154 | the head read before the producers' insertions is the message written; the rest stays in order with the arrivals behind it |
| TailQueue.LogQueue.DrainBatch | src/cew_logger.c:118-156 | the do-while loop writes exactly the first n messages in order, frees their memory, and leaves the rest followed by all arrivals |
| TailQueue.LogQueue.FreeAll | src/cew_logger.c:428-436 | the traversal frees every entry and string that is allocated, each once, in queue order, reading the next pointer before the free; each turn frees what the step machine frees |
| TailQueue.LinkedAppend | src/cew_logger.c:238 | splicing behind the last cell yields a well-linked list that reads as the old messages and the new one |
| TailQueue.LinkedTail | src/cew_logger.c:133-134 | freeing the first cell leaves a well-linked list of the other messages that does not refer to the string taken out |
| RoundRobin.RoutesInTurn | src/cew_worker.c:307-313 | from the wrapped initial value, client k goes to worker k mod N, and the addition wraps for the first client only |
| RoundRobin.ConsecutiveClientsDiffer | src/cew_worker.c:307-313 | any N consecutive clients go to N different workers |
| RoundRobin.LoadIs | src/cew_worker.c:307-313 | the exact number of the first k clients that worker w got |
| RoundRobin.LoadsAreBalanced | src/cew_worker.c:307-313 | the loads of two workers never differ by more than one |
| WorkerTable.TableStaysConsistent | src/cew_worker.c:328-487 | over any sequence of init, route and destroy, the slots in use are exactly those below the count, also after a failed init, and no record is freed twice or while in use |
| WorkerTable.RouteFindsWorker | src/cew_worker.c:307-323 | after any such sequence, a route with a positive count lands on a slot in use |
| WorkerTable.DestroyReleasesOnce | src/cew_worker.c:406-487 | after any such sequence, destroy frees each remaining record exactly once and a second destroy has no effect |
| WorkerEffects.ReleasedOnce | src/cew_worker.c:431-477 | after any calls, for every slot in use, on the fields of its record: one SIGTERM and one reap of its process, and one SIGKILL exactly if the SIGTERM failed, if the process is that slot's only; one close of each descriptor that is that slot's only; one removal of its IPC file and one free of its record; stop before reap, and both before the free |
| WorkerEffects.NothingElseReleased | src/cew_worker.c:406-487 | destroy has no effect that no record in the table calls for |
| WorkerEffects.InitHoldsOutcomes | src/cew_worker.c:335-401 | after init slot i holds the process and the descriptors of outcome i, for as many workers as started in a row, and the only effect is the free of a record whose worker failed after its allocation |
| WorkerTable.ClientGoesTo | src/cew_worker.c:307-323 | the k-th client of the table goes to the slot of worker k mod N, which is in use |
| WorkerTable.WorkerAdmin.WorkerInit | src/cew_worker.c:328-401 | the loop over the slots is the specified init for every outcome of malloc, fork and IPC set-up and every wanted number; it succeeds exactly if all workers fit and start, and runs past its table exactly if more than 64 are wanted and the first 64 start |
| WorkerTable.WorkerAdmin.WorkerDestroy | src/cew_worker.c:406-487 | the loop over all slots has exactly the specified effects, in slot order, and empties the table |
| WorkerTable.WorkerAdmin.RouteClient | src/cew_worker.c:307-323 | advances the index and returns the worker in that slot |
| Connections.EveryConnectionInOnePlace | src/cew_socket.c:33-43 | after any run every accepted connection is dropped, or on worker c mod N exactly once, in its channel, live, failed or finished, on no other worker; at most one request of it was handled; no callback ran on a freed record |
| Connections.ChannelsAreFifo | src/cew_worker.c:170-186 | each worker receives exactly the connections routed to it, in the order of their acceptance |
| Connections.ReceiveRegisters | src/cew_worker.c:170-186 | a received connection gets a record and both watchers if it was registered; if not, nothing is started and nothing else changes |
| Connections.CallbackEndsOrKeeps | src/cew_client.c:60-93 | in every reachable state a receive error leaves the connection live with both watchers; a timeout, a close and a request each end it, and exactly the request is handled; no other connection is touched |
| Connections.FailedIsNeverServed | src/cew_client.c:107-113 | a connection whose registration failed is never live, watched, handled or finished |
| Connections.EveryConnectionCanBeServed | src/cew_client.c:60-126 | from every reachable state a queued or live connection can be brought to its end with its request handled |
| Connections.StepKeeps | src/cew_client.c:27-126 | accepting, receiving, collecting and delivering an event keep the invariant of all workers |
| ClientLoop.Loop.Arrive | src/cew_worker.c:307-323 | a routed connection joins the end of the worker's channel |
| ClientLoop.Loop.IpcCallback | src/cew_client.c:96-126 | registering in place is the machine's registration: two watchers and a record with the descriptor, or a failure without either; no other record changes |
| ClientLoop.Loop.Drain | src/cew_client.c:43 | the drain loop stops at the first read that returns zero, and goes on as long as none does |
| ClientLoop.Loop.Remove | src/cew_client.c:27-58 | stops both watchers; once the drain loop ends, closes the descriptor once if it has one and frees this record and no other; until then does nothing more; the closed descriptors are always exactly those of the finished connections, once each |
| ClientLoop.Loop.TimeoutCallback | src/cew_client.c:60-67 | is the machine's timeout callback as soon as the drain loop ends, and then closes exactly that client's descriptor |
| ClientLoop.Loop.ServeCallback | src/cew_client.c:70-93 | is the machine's serve callback as soon as the drain loop ends, sends exactly one response, the specified one, if data came, closes exactly that client's descriptor at the end, and touches no other record |
| HttpRequest.RegexAccepts | src/cew_http.c:30-32 | the expression matches with group f exactly if the text starts, ignoring case, with GET /f HTTP/1 and f has no space |
| HttpRequest.RequestIsUnique | src/cew_http.c:35-36 | the text determines the group |
| HttpRequest.ParseIsRegexMatch | src/cew_http.c:20-55 | parsing succeeds exactly if the expression matches the received text, and yields the group in lower case |
| HttpRequest.Extension | src/cew_http.c:106-115 | the search loop finds an extension exactly if there is a dot, and then what follows the last dot |
| HttpRequest.ExtensionIsUnique | src/cew_http.c:106-115 | a name has only one extension |
| HttpRequest.DetermineMime | src/cew_http.c:102-137 | the type found is the one of the extension, and none is found exactly if the extension has none |
| HttpMessage.ReadJoined | src/cew_http.c:158-173 | header lines followed by an empty line read back as the same lines, with everything behind it as the rest |
| HttpMessage.FirstBlank | src/cew_http.c:172-173 | the first blank line is the one that ends the header, whatever the body contains |
| Text.DecimalReadsBack | src/cew_http.c:170-171 | the printed length reads back as the length |
| Text.LowerChanges | src/cew_settings.c:171-178 | lower-casing changes exactly the letters from A to Z, by their distance from a to z, and leaves none |
| HttpResponse.OkReadsBack | src/cew_http.c:158-183 | a 200 response reads back as status, fields and the whole file, with a Content-Length equal to the file's size and no earlier blank line |
| HttpResponse.NotFoundReadsBack | src/cew_http.c:58-68 | the 404 response reads back with its text as body, delimited by the close of the connection |
| HttpResponse.ReplyIsFramed | src/cew_http.c:140-203 | for every received text and every disk, what is sent is a readable message exactly if the request parses and the file is missing, or is readable and has a known extension; it then carries the file or the 404 text |
| HttpContent.NothingIsSentExactly | src/cew_http.c:140-203 | nothing at all is sent exactly for a request that does not parse and for an existing file with none of the five extensions |
| HttpContent.RootIsIndex | src/cew_http.c:80-86 | GET / is answered from /opt/www/index.html, as text/html, or with 404 if that does not exist |
| HttpContent.TypesByExtension | src/cew_http.c:117-126 | a readable file below /opt/www is carried by the response, and each of the five extensions gives its Content-Type |
| HttpContent.TypedExactly | src/cew_http.c:114-136 | a file has a type exactly if what follows its last dot is one of the five extensions |
| HttpContent.FileIsServed | src/cew_http.c:158-183 | a client reads back type, connection, length and content of a readable file |
| HttpPath.PathStaysBelowExactly | src/cew_http.c:76-95 | the path made from a request stays below the document root at every component if and only if its double dots never outnumber the names before them |
| HttpPath.PathCanLeave | src/cew_http.c:76-95 | a request whose path does not |
| HttpResponse.Handle | src/cew_http.c:140-203 | the send buffer built step by step is the specified reply, in all branches |
| HttpResponse.BuildOk | src/cew_http.c:158-183 | the appended pieces are the header lines, the empty line and the file, or only the start of the header if the file cannot be opened |
| HttpResponse.NotFound | src/cew_http.c:58-68 | appends the 404 message |
| Settings.LastValueIsLastMatch | src/cew_settings.c:78-118 | the specified value is that of the last pair whose lower-cased section and key begin with the names of the row; there is none exactly if no pair matches |
| Settings.OneResult | src/cew_settings.c:120-200 | the specification determines all settings |
| Settings.OneRow | src/cew_settings.c:33-40 | no pair matches two rows of the table |
| Settings.SettingsByName | src/cew_settings.c:33-40 | for each of the five settings, the literal section and key that a pair has to begin with, and the field it sets |
| Settings.CaseNeverMatters | src/cew_settings.c:171-178 | changing the letter case of sections and keys never changes the result |
| Settings.LoadsCompose | src/cew_settings.c:120-200 | loading two files in turn is loading their pairs as one file |
| Settings.StrncmpIsPrefix | src/cew_settings.c:90-91 | the comparison up to the name's length is zero exactly if the string begins with the name |
| Settings.StrtolReadsBack | src/cew_settings.c:97 | a printed number reads back behind any white space and in front of anything but a digit; out of the range of long it becomes the bound |
| Settings.StrtolElse | src/cew_settings.c:97 | a plus sign is skipped, text without a number is zero, and the bounds are those of a 64-bit long |
| Settings.PairsGrow | src/cew_settings.c:150-189 | every section before the first error contributes all its pairs, in order |
| Settings.PairsStop | src/cew_settings.c:161-164 | nothing is read after an error |
| Settings.RowsAreLoad | src/cew_settings.c:78-118 | the table search over the names lower-cased up to a NUL has the effect of loading that pair |
| Settings.WrittenLoads | src/cew_settings.c:33-40 | writing all settings out under their names and loading them gives them back, whatever was set before |
| Settings.Store.LowerCase | src/cew_settings.c:172-178 | the loop lower-cases the text before the first NUL of that string, in place, and nothing else |
| Settings.Store.SetText | src/cew_settings.c:101-109 | the old name is freed if there is one, the value is copied to a new address, and no other string changes |
| Settings.Store.ParseOption | src/cew_settings.c:78-118 | the loop over the table stores the value in the matching setting and no other; only the log file's name allocates, and then its old string is freed; success is returned exactly for a matching setting of type long |
| Settings.Store.LoadSection | src/cew_settings.c:150-189 | the inner loop applies the pairs of the section in order; on a reader error only the section's name stays allocated |
| Settings.Store.Load | src/cew_settings.c:120-200 | every setting ends up as the last matching pair before the first reader error says, or unchanged; the return codes; beside what was there before, only the log file's name is allocated, and one section's name exactly if the reader fails inside a section |
| Settings.Store.LoadAll | src/cew_settings.c:120-200 | after any number of loads, exactly one string for each load that failed inside a section is allocated beside the log file's name |
| Settings.Store.Destroy | src/cew_settings.c:212-224 | all settings return to their defaults, the log file's name is freed and no other string is |

## Left out

- System and library calls (sockets, fork, signals, waitpid, stdio, libev, libini, sds, regcomp) are steps with a result or parameters, not code.
- `main`, `daemonize`, signal handlers and `worker_monitor` only call the parts modelled here in a fixed order. `settings_to_log`, the timestamps and the formatting of log lines only decide what a message says, which no property here depends on. `settings_get` and `settings_set` copy the struct, and who owns the log file's name after a copy is not modelled. The content under `www/` has no behaviour.
- The logger's settings are fixed during a run, with a queue size and a bulk threshold that are not negative; the 32-bit counter is an integer without bounds, which `LogBounds.CounterBound` justifies for a queue size below the 32-bit range.
- A failing `pthread_mutex_unlock` in a producer is not modelled; in the writer it is the halting step. Unlocked reads and writes are atomic.
- The stream's buffer is kept by whole messages, so a partly written line is not visible.
- The `log_debug` call at the start of `logger_destroy` is an ordinary call of `log_msg` by some thread.
- The worker's own run of `worker_destroy` is not modelled: there the inherited slots of earlier siblings are signalled too (src/cew_worker.c:416-441).
- The master keeps its copy of a routed socket, and failed registrations and failed IPC set-ups do not release everything; the models record the failure and make no claim about those descriptors.
- WorkerTable.WorkerAdmin.WorkerInit: stops where the source writes past its table; what that write destroys is not modelled.
- WorkerEffects.ReleasedOnce: takes every record to have an IPC file of its own, because the source names the files with random() and two names could coincide.
- LogModel.Legal: a run has memory for every message, because the source writes through the result of malloc unchecked; `LogTheorems.NoFault` has that failure as a step.
- WorkerTable.WorkerAdmin.RouteClient: requires a worker, because the source divides by the number of workers.
- Connections.EveryConnectionInOnePlace: a worker whose drain loop does not end takes no further step in the machine; that the worker is then lost to its other clients is not stated.
- Symbolic links are not followed when a path is resolved.
- ClientLoop.Loop.ServeCallback: takes the received text as shorter than the receive buffer, so that it is terminated.
- HttpResponse.BuildOk: assumes that one read returns the whole file, and that the appended MIME type is visible although the source drops the pointer that the append returns.
