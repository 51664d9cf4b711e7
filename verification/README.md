# Verified model of the gateway and its agent

The repository is a C++17 Reactor HTTP gateway with its own infrastructure (byte
buffers, parser, event loop, worker pool, output state machine, LFU cache, slab
allocator, asynchronous log) in front of a Python agent. This project models the parts
of it that carry state, branching or arithmetic, and proves what they are for. Every
file is Dafny; `dafny verify dfyconfig.toml` checks the whole project.

## How the model is laid out

| files | what they model |
|---|---|
| `Buffer.dfy`, `HttpRequest.dfy`, `HttpContext.dfy`, `HttpRoundTrip.dfy` | the byte queue and the incremental HTTP parser; a printer the parser undoes |
| `EventLoop.dfy`, `TaskExecutor.dfy` | the cross-thread functor queue with its eventfd, and the worker pool |
| `TcpConnection.dfy` | direct writes, the output buffer, write interest, the deferred half-close |
| `Chunked.dfy`, `EventSource.dfy`, `StreamServer.dfy`, `StreamEvents.dfy`, `Gateway.dfy`, `Utf8Replay.dfy` | chunks and event streams with a reader for each; streamed replies under every interleaving, what a client reads in them, and the same on the connections below; replay of cached answers |
| `LfuIndex.dfy`, `LfuProperties.dfy`, `LfuLimits.dfy`, `LfuReference.dfy`, `LfuCache.dfy` | the LFU cache with ageing: its values, its invariant, its exact limits, a naive cache it refines, and the linked lists themselves |
| `PadPointer.dfy`, `SlabPool.dfy`, `HashBucket.dfy` | padding in 64-bit arithmetic, one pool over a heap of words, and all 64 pools side by side |
| `AsyncLogging.dfy` | the double-buffered logger |
| `SseFraming.dfy` | the client side of an upstream event stream |
| `Workflow.dfy`, `Json.dfy`, `Numbers.dfy`, `Conversation.dfy`, `Ndcg.dfy` | the agent's graph with the JSON text it tells tool calls apart by and the Python numbers in it, its conversation memory, and a retrieval metric |
| `Strings.dfy` | joining text |

Two forms recur. Code that updates an object is a class whose methods are proved equal
to functions on values (`ensures Abs() == F(old(Abs()), ...)`); the promises are lemmas
about those functions over every run. Code that several threads run is a state machine
over the steps the threads can interleave, at the granularity of critical sections and
of single writes to shared variables; `Reaches(s, actions, t)` ranges over every
interleaving, and the promises are lemmas about every reachable state. Where such code is
an object (`Reactor.Loop`, `WorkerPool.Executor`, `TcpConnection`, `AsyncLogging`), its
methods are proved to be moves of the machine.

What the program cannot see is an argument of the step that meets it: what a read
delivers and a write takes, which order an unordered map yields, what `operator new`
returns, what a model, a retriever or the user answers, what a JSON text contains. A
byte is a `char` whose code is the byte's value.

Where the source meets a promise only under a condition, the model keeps the source's
behaviour and proves the condition exactly:

* the cached minimum of the LFU cache is the least frequency in every run if and only if
  the average limit is from 2 to 250 (`LfuLimits.ExactIff`);
* padding aligns a slot to its size if and only if the size is a power of two
  (`PadPointer.AlignsIffPowerOfTwo`), although the comment at memory/memoryPool.cc:102
  promises it for every size;
* a chunked body decodes whole if and only if no payload is empty
  (`Chunked.DecodesIffNoEmpty`), which is what the server's filters on empty pieces are for;
* a client can read the streamed replies of its connection if and only if each of its
  requests came after the reply before it was done (`StreamServer.ReadableIff`, and down to
  the socket `Gateway.ReadableIff`): the server starts a reply as soon as a request is
  parsed, so requests sent without waiting, as section 9.3.2 of RFC 9112 allows, put one
  reply's headers inside the other's body (`StreamServer.TwoAtOnce`);
* bytes given to a connection are lost if and only if some send of bytes met a broken
  connection with nothing waiting; otherwise what the kernel took and what waits are all of
  them (`TcpOutput.LostIff`, over the kernel's answers alone);
* a message is refused if and only if its first line has arrived and is no request line
  (`HttpRoundTrip.RefusedIff`);
* `shutdownWrite` never cuts bytes off if and only if `shutdown()` is left to the
  connection's own loop (`TcpOutput.NeverCutsIff`), as the server does; asked for by another
  thread it can be overtaken by a close, and cuts off exactly when bytes wait
  (`TcpOutput.CutOffIff`);
* a quit is honoured if and only if it follows the first statements of `loop()`, which
  clear the flag (`EventLoop.QuitHonouredIff`); a loop that has stopped has run everything
  queued if and only if nothing was queued after its last swap (`EventLoop.StoppedIff`), and
  one told to quit still runs what is queued if and only if the queue is empty or a swap comes
  before the next test of the flag (`EventLoop.QuitDrainsIff`, `EventLoop.QuitLeavesBehind`);
* `stop()` leaves no earlier task behind if and only if the pool has a worker
  (`TaskExecutor.StopDrainsIff`);
* logging a line keeps it if and only if it is shorter than a buffer
  (`AsyncLog.DroppedIff`); when the logger has stopped nothing is missing if and only if no
  such line came after its last swap (`AsyncLog.LostAtStop`, `AsyncLog.StopLoses`);
* NDCG is 1 if and only if k is positive and distinct relevant names fill the leading ranks
  (`Ndcg.NdcgOneIff`); precision is at most 1 for every input if and only if k is not
  negative (`Ndcg.PrecisionBoundedIff`);
* a tool call is caught as a repetition if and only if an earlier call had the same tool and
  equal arguments of the same form: keys in the same order, and numbers of the same kinds
  (`Workflow.CaughtIff`), because agent/backend/app/graph/nodes/common.py:56-57 prints keys in
  the order the model wrote them and prints the equal values 1, 1.0 and True differently. So
  no pair is executed twice or after a refusal when the calls of a run list their keys in one
  fixed order and give each key one kind of number, as the tools' schemas do
  (`Workflow.FixedFormOnce`), and an equal pair in another form is
  (`Workflow.OtherFormRunsTwice`, `Workflow.OtherFormRunsAfterRefusal`);
* a plan is saved if and only if the answer to the question that ApprovePlan puts was an
  approval, or none is required (`Workflow.PlanSavedIff`);
* the version of a stored summary counts the calls it is made of if and only if no call stored
  over a summary it had not read; whatever overlaps, the summary covers its messages once
  (`OverlappingTurns.OverlapsLeaveNoGaps`);
* a run of the agent that is over has a final answer if and only if it did not plan research
  without a single task (`Workflow.EndsFinalizedIff`).

## Model

| member | source | states |
|---|---|---|
| ByteBuffer.Slide | include/net/Buffer.h:101-108 | the overlapping copy within one array moves the bytes unchanged |
| ByteBuffer.Buffer.Retrieve | include/net/Buffer.h:34-43 | drops the oldest bytes of the queue, all of them when asked for more than there are |
| ByteBuffer.Buffer.RetrieveAll | include/net/Buffer.h:45-49 | empties the queue |
| ByteBuffer.Buffer.RetrieveAsString | include/net/Buffer.h:53-58 | what is returned followed by what is left is what was readable |
| ByteBuffer.Buffer.MakeSpace | include/net/Buffer.h:89-110 | both branches keep the readable bytes and really free the length asked for |
| ByteBuffer.Buffer.EnsureWritableBytes | include/net/Buffer.h:61-67 | keeps the readable bytes and yields at least len writable ones |
| ByteBuffer.Buffer.Append | include/net/Buffer.h:70-76 | appends the bytes to the end of the queue |
| ByteBuffer.Buffer.ReadFd | src/net/Buffer.cc:15-59 | appends exactly the bytes read, whichever segment they landed in; an error changes nothing |
| HttpMessage.GetHeaderUnique | src/http/HttpRequest.cc:76-87 | the lookup finds the only name that matches regardless of case |
| HttpMessage.GetHeaderNone | src/http/HttpRequest.cc:76-87 | and yields the empty string when no name matches |
| HttpMessage.SameNameIff | src/http/HttpRequest.cc:76-87 | two names without NUL match exactly when they agree at each position but for the case of letters |
| HttpMessage.GetHeaderAnyCase | src/http/HttpRequest.cc:76-87 | the field whose name is the one looked up but for case is found |
| HttpMessage.GetHeaderFirst | src/http/HttpRequest.cc:76-87 | of two that match, the one whose name comes first as bytes |
| HttpMessage.TrimExactly | src/http/HttpRequest.cc:70-74 | a value is stored without the blanks, tabs and line ends around it |
| HttpParser.HttpContext.Reset | src/http/HttpContext.cc:11-17 | back to the initial parser |
| HttpParser.HttpContext.Pass | src/http/HttpContext.cc:66-142 | one iteration of the loop: the parser and the bytes consumed are those of Step |
| HttpParser.HttpContext.ParseRequest | src/http/HttpContext.cc:66-142 | verdict, parser and leftover bytes are those of the recursive Parse; the loop terminates |
| HttpParser.StepProgress | src/http/HttpContext.cc:66-142 | every iteration that goes on consumes bytes or moves to a later state |
| HttpParser.StepMonotone | src/http/HttpContext.cc:66-142 | a pass that could act or fail does the same when more bytes follow |
| HttpParser.Fragmentation | src/http/HttpContext.cc:66-142 | from any state, parsing a, then b behind the leftover, gives verdict, parser and leftover of parsing a followed by b |
| HttpParser.AnyFragmentation | src/http/HttpContext.cc:66-142 | the same for any number of arrivals |
| HttpRoundTrip.RequestLineParsed | src/http/HttpContext.cc:20-63 | a printed request line yields its method, path, query and version |
| HttpRoundTrip.FieldLineParsed | src/http/HttpRequest.cc:70-74 | a printed field with any optional white space yields its name and value |
| HttpRoundTrip.AtoiDecimal | src/http/HttpContext.cc:100-109 | atoi of the decimal numeral of an int is that int |
| HttpRoundTrip.AtoiSigned | src/http/HttpContext.cc:100-101 | with white space and a sign too: the number as far as an int reaches, its 32 low bits as far as a long does, and the truncated limit beyond |
| HttpRoundTrip.NegativeLength | src/http/HttpContext.cc:100-101 | a negative length is taken for 2^64 minus it |
| HttpRoundTrip.RequestLineIff | src/http/HttpContext.cc:20-63 | a line is accepted exactly if it is a known method, a target and a known version with a blank between them |
| HttpRoundTrip.RefusedIff | src/http/HttpContext.cc:66-142 | a message is refused exactly if its first line is there and is no such line |
| HttpRoundTrip.RefusedLeaves | src/http/HttpContext.cc:66-142 | and then left unread, the parser in its first state with the method already set |
| HttpRoundTrip.ColonlessSkipped | src/http/HttpContext.cc:113-122 | a line without a colon among the fields is passed over |
| HttpRoundTrip.RoundTrip | src/http/HttpContext.cc:20-142 | parsing the printed form of a well-formed request (RFC 9112 sections 3, 5 and 6.2) gives the request back and leaves exactly what follows it |
| HttpRoundTrip.SampleParsed | src/http/HttpContext.cc:66-142 | a request given byte by byte, with query, body, a field name in another case and white space around its value, is read as that request |
| HttpRoundTrip.RoundTripInPieces | src/http/HttpContext.cc:66-142 | also when it arrives in arbitrary pieces |
| Reactor.Loop.Begin | src/net/EventLoop.cc:77-80 | entering the loop clears an earlier quit |
| Reactor.Loop.QueueInLoop | src/net/EventLoop.cc:139-155 | a push, and a wake-up exactly where the state machine has one: from other threads and from functors being run |
| Reactor.Loop.Quit | src/net/EventLoop.cc:115-123 | another thread's quit sets the flag and wakes the loop |
| Reactor.Loop.Wakeup | src/net/EventLoop.cc:168-176 | raises the eventfd, up to its limit |
| Reactor.Loop.HandleRead | src/net/EventLoop.cc:157-165 | the wake-up channel's handler clears the eventfd |
| Reactor.Loop.TakePending | src/net/EventLoop.cc:194-203 | takes the whole queue in one swap with the flag up |
| Reactor.Loop.DoPendingFunctors | src/net/EventLoop.cc:194-210 | is a run of the state machine that executes what was queued when it began, in order, and nothing else |
| EventLoop.NextKeeps | src/net/EventLoop.cc:77-210 | every step of any thread keeps the queue accounts and the wake-up invariant |
| EventLoop.NoLostWakeup | src/net/EventLoop.cc:139-176 | a loop blocked in poll with work queued or told to quit has the eventfd raised or a thread about to raise it |
| EventLoop.SilentAfterRead | src/net/EventLoop.cc:157-176 | once its handler has read it the eventfd stays down until somebody wakes the loop |
| EventLoop.WakesAddUp | src/net/EventLoop.cc:168-176 | wake-ups add up in the eventfd, to its limit |
| EventLoop.RunInQueueOrder | src/net/EventLoop.cc:194-210 | functors run in the order queued, none twice, none skipped |
| EventLoop.NeverDelayed | src/net/EventLoop.cc:77-210 | each own step of the loop brings a queued functor nearer, except the test that finds the loop told to quit; no step of others pushes it back |
| EventLoop.Drains | src/net/EventLoop.cc:77-103 | left to itself a loop not told to quit since it began runs everything queued without waiting for a time-out |
| EventLoop.QuitHonouredIff | src/net/EventLoop.cc:77-123 | in every run the flag is up exactly if somebody asked after loop() cleared it |
| EventLoop.StoppedIff | src/net/EventLoop.cc:77-210 | in every run what ran or is in the batch is what was queued by the last swap; a stopped loop ran everything if and only if nothing was queued since |
| EventLoop.QuitDrainsIff | src/net/EventLoop.cc:77-123 | left to itself a loop told to quit stops, having run everything queued if and only if the queue is empty or a swap comes before the next test |
| EventLoop.QuitLeavesBehind | src/net/EventLoop.cc:77-123 | a run in which a functor queued before the quit never runs |
| WorkerPool.Executor.Submit | src/base/TaskExecutor.cc:43-49 | the push is one move of the state machine, its notification still to come |
| WorkerPool.Executor.Take | src/base/TaskExecutor.cc:55-62 | the locked part of a worker takes the oldest task, waits, or leaves when stopped and drained |
| WorkerPool.Executor.ClearRunning | src/base/TaskExecutor.cc:28-33 | only the first stop goes on |
| TaskExecutor.NextKeeps | src/base/TaskExecutor.cc:26-66 | every step of submitters, workers and stop keeps the accounts |
| TaskExecutor.FirstInFirstOut | src/base/TaskExecutor.cc:43-66 | tasks leave in submission order; the finished and the running ones are exactly those taken, each once |
| TaskExecutor.NoLostNotification | src/base/TaskExecutor.cc:43-58 | tasks are never queued with every worker asleep and no notification on its way |
| TaskExecutor.StopDrainsIff | src/base/TaskExecutor.cc:26-40 | when stop has joined its workers every earlier task has run, exactly when there is a worker |
| TaskExecutor.WorkerStepDecreases | src/base/TaskExecutor.cc:51-66 | while stop joins, every worker step leaves less to do |
| TaskExecutor.StopReturns | src/base/TaskExecutor.cc:34-39 | and some step is always possible, so stop returns |
| TcpConnection.TcpConnection.Send | src/net/TcpConnection.cc:61-75 | accepts bytes only while connected, with the effect of TcpOutput.Send |
| TcpConnection.TcpConnection.SendInLoop | src/net/TcpConnection.cc:80-147 | direct write, buffering, high-water mark and write interest, for any answer of the kernel |
| TcpConnection.TcpConnection.Enqueue | src/net/TcpConnection.cc:127-146 | what the kernel did not take waits behind what already does |
| TcpConnection.TcpConnection.Shutdown | src/net/TcpConnection.cc:149-157 | begins the half-close once |
| TcpConnection.TcpConnection.ShutdownInLoop | src/net/TcpConnection.cc:159-165 | closes the write side only when nothing is being written |
| TcpConnection.TcpConnection.HandleWrite | src/net/TcpConnection.cc:212-245 | takes sent bytes off, stops watching when empty, completes a pending half-close |
| TcpConnection.TcpConnection.HandleClose | src/net/TcpConnection.cc:247-256 | disconnects and drops all interest |
| TcpConnection.TcpConnection.ConnectEstablished | src/net/TcpConnection.cc:168-176 | the connection accepts sends from here on |
| TcpConnection.TcpConnection.ConnectDestroyed | src/net/TcpConnection.cc:179-188 | disconnects if still connected |
| TcpOutput.NextKeeps | src/net/TcpConnection.cc:61-256 | every step keeps byte accounts, write interest, half-close order and callback order |
| TcpOutput.Conservation | src/net/TcpConnection.cc:80-147 | bytes taken, waiting and in flight are all accepted bytes in order if and only if no faulty write dropped any |
| TcpOutput.KernelAccounts | src/net/TcpConnection.cc:80-245 | in every run the kernel has as many bytes as it answered to have taken, and as many are lost as the sends held that met a broken connection with nothing waiting |
| TcpOutput.LostIff | src/net/TcpConnection.cc:80-147 | bytes are lost if and only if there was such a send of bytes; otherwise all accepted ones are with the kernel, waiting or in flight, in order |
| TcpOutput.CallbacksExactly | src/net/TcpConnection.cc:96-245 | which callback a step queues: a warning when the mark is reached from below, completion when a write leaves nothing waiting, else none |
| TcpOutput.WriteInterest | src/net/TcpConnection.cc:108-145 | until close, write interest is on exactly when bytes wait |
| TcpOutput.HalfCloseComes | src/net/TcpConnection.cc:149-165 | shutdownWrite on an open connection comes after the last byte ever kept, and nothing is accepted later |
| TcpOutput.StalledSend | src/net/TcpConnection.cc:80-147 | a connected state with any bytes waiting is reachable |
| TcpOutput.OvertakenHalfClose | src/net/TcpConnection.cc:149-165 | from every such state a close can overtake a half-close asked for elsewhere and cut them off |
| TcpOutput.CutOffIff | src/net/TcpConnection.cc:149-165 | a call of shutdownWrite cut bytes off exactly if bytes wait, and only once the connection was closed |
| TcpOutput.OwnThreadNeverCuts | src/net/TcpConnection.cc:149-165 | a connection shut down only from its own loop never cuts bytes off |
| TcpOutput.NeverCutsIff | src/net/TcpConnection.cc:149-165 | in every run nothing is cut off, if and only if no other thread calls shutdown() |
| TcpOutput.HalfCloseHappens | src/net/TcpConnection.cc:212-245 | however little the kernel takes at a time, draining ends in shutdownWrite |
| TcpOutput.CallbacksTellTheTruth | src/net/TcpConnection.cc:96-136 | with everything out the last callback is write-complete; over the mark it is a high-water warning |
| Chunked.HexValue | src/http/HttpServer.cc:18-29 | the printed chunk size reads back as the size |
| Chunked.ChunkDecoded | src/http/HttpServer.cc:18-29 | a reader by section 7.1 of RFC 9112 takes one chunk off and continues with what follows |
| Chunked.StreamDecodes | src/http/HttpServer.cc:18-29 | chunks and terminator decode to the payloads joined, and the reader stops exactly there |
| Chunked.EmptyPayloadEndsEarly | src/http/HttpServer.cc:18-29 | the first empty payload ends the body: the reader has the payloads before it, and takes all chunks after it for the next message |
| Chunked.DecodesIffNoEmpty | src/http/HttpServer.cc:209-213 | the body decodes whole if and only if no payload is empty |
| Chunked.NoEarlyEnd | src/http/HttpServer.cc:18-29 | a reader with anything less than the whole body waits, having delivered a beginning of the content |
| EventSource.EventRead | src/http/HttpServer.cc:32-44 | a reader by section 9.2.6 of the WHATWG HTML standard takes an event off, with its name and data, and continues with what follows |
| StreamServer.TextGrows | src/http/HttpServer.cc:186-225 | what a worker's step queues is exactly what its payloads add to the reply |
| StreamServer.NextKeeps | src/http/HttpServer.cc:186-225 | every step of the loop and all workers keeps each connection's queue equal to its replies so far, or marks where a request came too early |
| StreamServer.InOrder | src/http/HttpServer.cc:186-225 | in every interleaving a connection is sent a beginning of its replies in turn, each of headers, status, data in callback order, error, terminator; all of it once the queue is empty |
| StreamServer.NeverEndsEarly | src/http/HttpServer.cc:259-417 | before the reply is complete its body decodes to a beginning and asks for more |
| StreamServer.CompleteDecodes | src/http/HttpServer.cc:259-417 | a finished reply is one well-formed body that decodes to everything delivered, and the reader stops where the next reply begins |
| StreamServer.Hears | src/http/HttpServer.cc:186-417 | a client sent any beginning of the replies has the contents of the whole ones and a beginning of the next |
| StreamServer.ClientView | src/http/HttpServer.cc:186-417 | so it is in every interleaving; it has every reply exactly when all are done and sent |
| StreamServer.ReadableIff | src/http/HttpServer.cc:103-225 | with the queue empty the client can read everything, if and only if no request came before the previous reply was done |
| StreamServer.TwoAtOnce | src/http/HttpServer.cc:103-225 | a run of two requests at once that no client can read |
| StreamServer.ShutdownIsLast | src/http/HttpServer.cc:216-223 | a connection is shut down only behind a complete reply, and only if that was asked for |
| StreamServer.ShutdownHappens | src/http/HttpServer.cc:216-223 | and is, once everything queued has run |
| StreamServer.AgentReply | src/http/HttpServer.cc:204-225 | the agent route relays byte for byte: status, all bytes of the callback, an error event if upstream failed |
| StreamServer.AgentRelays | src/http/HttpServer.cc:204-225 | that is the content of every finished agent reply in every run |
| StreamEvents.ChatRelays | src/http/HttpServer.cc:259-417 | in every run a finished chat reply reads, as an event stream, as its status and then, in order, the thinking status, one delta for each non-empty piece from the model and the done or error event; or a cached answer piece by piece |
| StreamEvents.HeadersAnnounce | src/http/HttpServer.cc:195-201 | the header block is a status line and five fields, among them the chunked transfer coding, printed as RFC 9112 has them |
| Gateway.SendAllSound | src/net/TcpConnection.cc:61-147 | the sends of a functor are accepted whole and in order, or not at all, whatever the kernel answers |
| Gateway.RunEnabled | src/net/EventLoop.cc:194-210 | running the next functor waits for nothing but the kernel's answers |
| Gateway.NothingLost | src/net/TcpConnection.cc:80-147 | a connection whose functors' sends were never answered with a fault has lost nothing |
| Gateway.NextKeeps | src/http/HttpServer.cc:186-417 | every step of loop, workers, kernel and peers keeps each connection's accepted bytes equal to what its functors handed over, until it closes |
| Gateway.ClientSees | src/http/HttpServer.cc:186-417 | in every run in which no send of the connection was answered with a fault the bytes the kernel took are a beginning of the replies, and a client has the contents of the whole ones and a beginning of the next |
| Gateway.AllDelivered | src/http/HttpServer.cc:186-417 | there, with nothing left to run or write, an open connection has passed on every reply whole |
| Gateway.ReadableIff | src/http/HttpServer.cc:103-225 | and the client can read what it got, if and only if no request came before the previous reply was done |
| Gateway.EndToEnd | src/http/HttpServer.cc:186-417 | every shutdownWrite comes on an open connection behind a reply that was to close it; if no send was answered with a fault the kernel had every reply, and they read as all contents |
| Utf8Replay.NextUtf8Boundary | src/http/HttpServer.cc:46-54 | the first position from the chunk size on that does not split a character |
| Utf8Replay.CutValid | src/http/HttpServer.cc:46-54 | valid text (RFC 3629 section 4) cut before a byte that is no tail is valid on both sides |
| Utf8Replay.TailRun | src/http/HttpServer.cc:46-54 | valid text has at most three tail bytes in a row |
| Utf8Replay.Replay | src/http/HttpServer.cc:350-357 | the pieces join to the answer, start on character boundaries, have at least 48 bytes but for the last, and are valid and at most 51 bytes if the answer is valid |
| LfuCache.FreqList.AddNode | include/memory/LFU.h:57-66 | relinks the node at the end of the chain |
| LfuCache.FreqList.RemoveNode | include/memory/LFU.h:68-79 | unlinks the node and keeps the order of the rest |
| LfuCache.KLfuCache.RemoveFromFreqList | include/memory/LFU.h:220-229 | takes the key out of the list of its frequency, all other lists unchanged |
| LfuCache.KLfuCache.AddToFreqList | include/memory/LFU.h:231-247 | appends the key to the list of its frequency, creating it if needed |
| LfuCache.KLfuCache.EnsureList | include/memory/LFU.h:238-244 | creates the list of a frequency if missing, all contents unchanged |
| LfuCache.KLfuCache.Promote | include/memory/LFU.h:180-187 | moves a hit node up one list and the minimum with it when its list ran empty |
| LfuCache.KLfuCache.AgeOne | include/memory/LFU.h:288-298 | ages one node by half the limit, not below 1 |
| LfuCache.KLfuCache.UpdateMinFreq | include/memory/LFU.h:305-319 | the least occupied frequency below the sentinel, in whatever order the map is visited |
| LfuCache.KLfuCache.AgeNodes | include/memory/LFU.h:283-300 | ages every node once, in an arbitrary order it reports |
| LfuCache.KLfuCache.HandleOverMaxAverageNum | include/memory/LFU.h:275-303 | the ageing pass and the new minimum |
| LfuCache.KLfuCache.AddFreqNum | include/memory/LFU.h:249-262 | counts an access and ages when the average exceeds the limit |
| LfuCache.KLfuCache.DecreaseFreqNum | include/memory/LFU.h:264-273 | takes an evicted node's frequency off the total |
| LfuCache.KLfuCache.KickOut | include/memory/LFU.h:211-218 | evicts the head of the list at the cached minimum |
| LfuCache.KLfuCache.PutInternal | include/memory/LFU.h:193-209 | makes room and inserts with frequency 1 |
| LfuCache.KLfuCache.GetInternal | include/memory/LFU.h:174-191 | moves the node up one list, the minimum with it when its list ran empty |
| LfuCache.KLfuCache.Put | include/memory/LFU.h:102-120 | for every limit, where an eviction has a node to take the linked structure does what the value model of an insertion says; for limits from 2 to 250 it stays where it always has one |
| LfuCache.KLfuCache.Get | include/memory/LFU.h:122-133 | for every limit a hit returns the bound value and does what the value model says; a miss changes nothing |
| LfuCache.KLfuCache.Purge | include/memory/LFU.h:143-147 | empties map and lists |
| LfuProperties.LeastBelowAverage | include/memory/LFU.h:249-262 | some key's frequency is at most the average, because ageing never raises the sum of frequencies above the total |
| LfuProperties.AgeingRestores | include/memory/LFU.h:275-319 | after ageing in any order the cached minimum is exact and back under the limit |
| LfuProperties.AgeingExactly | include/memory/LFU.h:275-303 | in any order a pass takes half the limit off every frequency, or sets it to 1 where that would leave less, and touches no value |
| LfuProperties.AgeingKeepsOrder | include/memory/LFU.h:275-303 | so of two keys the more used one stays ahead as long as it is above 1 |
| LfuProperties.HitMin | include/memory/LFU.h:174-191 | a hit keeps the cached minimum exact |
| LfuProperties.AlwaysCanPut | include/memory/LFU.h:211-218 | in a good state eviction always finds a node where it looks |
| LfuProperties.ApplyKeeps | include/memory/LFU.h:102-147 | every operation keeps partition, sum bound, size bound and exact minimum |
| LfuProperties.ReachableInv | include/memory/LFU.h:102-319 | so does every run, for limits from 2 to 250 |
| LfuLimits.ExactIff | include/memory/LFU.h:305-319 | the cached minimum is exact in every run if and only if the limit is from 2 to 250 |
| LfuLimits.Breaks | include/memory/LFU.h:305-319 | for every other limit one key and a counted number of hits break it |
| LfuLimits.CountersBounded | include/memory/LFU.h:249-273 | no counter exceeds the number of operations performed |
| LfuReference.VictimSim | include/memory/LFU.h:211-218 | the node evicted is the earliest arrival among those of least frequency |
| LfuReference.StepSim | include/memory/LFU.h:102-147 | each operation is the same operation of a naive cache of frequencies and arrival stamps |
| LfuReference.Refines | include/memory/LFU.h:102-319 | every run holds the keys, values and frequencies of the naive cache |
| LfuReference.PutBindings | include/memory/LFU.h:102-120 | an insertion binds its key; at capacity exactly the victim's binding goes and all others stay |
| LfuReference.GetBindings | include/memory/LFU.h:122-133 | a lookup changes no binding |
| LfuReference.HitReturnsLastPut | include/memory/LFU.h:122-133 | a cached value is the one most recently put under its key; size never exceeds capacity |
| PadPointer.PadAlignsIff | memory/memoryPool.cc:103-107 | the padded address is aligned exactly when the subtraction did not wrap or the size divides 2^64 |
| PadPointer.AlignsIffPowerOfTwo | memory/memoryPool.cc:103-107 | for addresses above the size: exactly when it is a power of two |
| PadPointer.PadKeepsWords | memory/memoryPool.cc:103-107 | padding keeps word alignment whatever the slot size |
| PadPointer.SizeClass | include/memory/memoryPool.h:57-79 | a small request goes to the smallest slots that hold it and is freed to the same pool |
| HashBucket.Index | include/memory/memoryPool.h:57-79 | the pool of a request is the first whose slots hold it |
| SlabPool.AllocateKeeps | memory/memoryPool.cc:33-66 | allocation hands out a slot nobody held and keeps the pool's structure |
| SlabPool.NewBlockKeeps | memory/memoryPool.cc:81-100 | a new block joins the chain, has room for a slot, and disturbs nothing |
| SlabPool.FirstAllocation | memory/memoryPool.cc:33-100 | the first request is served from a new block past its link |
| SlabPool.DeallocateKeeps | memory/memoryPool.cc:68-79 | freeing threads the slot onto the free list and keeps the structure |
| SlabPool.WriteKeeps | memory/memoryPool.cc:33-79 | nothing an owner writes reaches a link of the pool |
| SlabPool.AllocateLeavesData | memory/memoryPool.cc:33-100 | allocation changes no word of a live slot |
| SlabPool.DeallocateLeavesData | memory/memoryPool.cc:68-79 | freeing one slot changes no word of another |
| SlabPool.NeverOverlap | memory/memoryPool.cc:33-107 | in every run slots lie in one block past its link, and slots and uncarved tail are disjoint |
| SlabPool.FreeListExact | memory/memoryPool.cc:33-79 | in every run the threaded list is acyclic and holds exactly the carved slots that were handed out and given back, each once |
| SlabPool.NothingLost | memory/memoryPool.cc:33-107 | in every run every place for a slot in any block is held by an owner, on the free list, or still to be carved |
| SlabPool.SlotAlignment | memory/memoryPool.cc:91-93 | slots are word-aligned, and aligned to their size if it divides 2^64 |
| SlabPool.FirstSlotAlignedIff | memory/memoryPool.cc:91-93 | the first slot of a block is aligned to its size exactly for powers of two |
| SlabPool.FreeThenAllocate | memory/memoryPool.cc:33-79 | a freed slot is the next one handed out, and the pool is as before |
| MemoryPool.MemoryPool.Allocate | memory/memoryPool.cc:33-66 | the object does what SlabPool.Allocate says and stays well-formed |
| MemoryPool.MemoryPool.AllocateNewBlock | memory/memoryPool.cc:81-100 | writes the new block's link and sets the carving bounds |
| MemoryPool.MemoryPool.Deallocate | memory/memoryPool.cc:68-79 | the object does what SlabPool.Deallocate says; null is ignored |
| MemoryPool.MemoryPool.Destroy | memory/memoryPool.cc:9-21 | gives back every block ever taken, each once |
| HashBucket.UseKeeps | include/memory/memoryPool.h:57-66 | a request through its pool leaves all 64 pools well-formed and its address was in nobody's hands |
| HashBucket.FreeKeeps | include/memory/memoryPool.h:68-79 | a free through its size leaves all pools well-formed |
| HashBucket.NoOverlap | include/memory/memoryPool.h:51-79 | in every run over all pools a piece in use lies in one block of its pool past the link, as large as asked for, and no two overlap |
| HashBucket.NothingLost | include/memory/memoryPool.h:51-79 | and every place for a slot in any pool's blocks is in use with that pool's size, on its free list, or still to be carved |
| AsyncLogging.FixedBuffer.Append | include/logging/FixedBuffer.h:24-31 | appends a line that leaves room, else nothing |
| AsyncLogging.FixedBuffer.Reset | include/logging/FixedBuffer.h:52-56 | empties the buffer |
| AsyncLogging.AsyncLogging.Append | log/AsyncLogging.cc:21-45 | the front end's critical section, moves included, keeps the log's invariant |
| AsyncLogging.AsyncLogging.TakeAll | log/AsyncLogging.cc:60-74 | the back end's critical section leaves a current and a next buffer |
| AsyncLogging.AsyncLogging.WriteAll | log/AsyncLogging.cc:76-79 | writes the buffers taken, in order |
| AsyncLogging.AsyncLogging.Reuse | log/AsyncLogging.cc:81-98 | refills the spare buffers without ever popping an empty vector |
| AsyncLog.LogConservation | log/AsyncLogging.cc:21-101 | in every interleaving written, in hand, queued and current text is every line that fits, whole and in order |
| AsyncLog.AlwaysSafe | log/AsyncLogging.cc:21-101 | no step dereferences a moved-from pointer or pops an empty vector |
| AsyncLog.AppendKeepsIff | log/AsyncLogging.cc:21-45 | from any good state a line joins the text held whole, if and only if it is shorter than a buffer or empty; else nothing changes |
| AsyncLog.DroppedIff | log/AsyncLogging.cc:21-45 | so it is in every state of every interleaving |
| AsyncLog.RoundWritesAll | log/AsyncLogging.cc:58-80 | one round takes everything logged before its swap |
| AsyncLog.LostAtStop | log/AsyncLogging.cc:58-102 | after the thread returns the file holds exactly what was logged before its last swap; nothing is lost if and only if no line that fits came after it |
| AsyncLog.StopLoses | log/AsyncLogging.cc:47-102 | a run in which a line is lost |
| SseFraming.StreamContext.WriteStreamData | src/ai/OpenAIClient.cc:37-111 | one arrival of bytes has the effect of Feed; the loop terminates |
| SseFraming.StreamContext.HandleOne | src/ai/OpenAIClient.cc:46-105 | one line changes error or assembled text as the frame says |
| SseStream.DataLineDoes | src/ai/OpenAIClient.cc:46-105 | what a data line does, by what its JSON text holds: the delta is handed on and added, or the message where there is none; an error is kept; the end mark and anything else change nothing |
| SseStream.AnyDataLine | src/ai/OpenAIClient.cc:46-56 | every line that begins data: is one of those, its blanks and carriage return taken off |
| SseStream.OtherLines | src/ai/OpenAIClient.cc:46-56 | every other line changes nothing |
| SseStream.LinesJoin | src/ai/OpenAIClient.cc:43-50 | the lines are the bytes cut at their line feeds |
| SseStream.FeedIsLines | src/ai/OpenAIClient.cc:37-111 | an arrival has the effect of the lines it completes, in order, and keeps what it leaves open |
| SseStream.DrainIsLines | src/ai/OpenAIClient.cc:43-108 | the buffering does nothing but cut the stream into lines |
| SseStream.FeedTwice | src/ai/OpenAIClient.cc:37-111 | two arrivals end as one with the bytes joined |
| SseStream.AnyChunking | src/ai/OpenAIClient.cc:37-111 | so does any number of arrivals |
| SseStream.NoNewlinePending | src/ai/OpenAIClient.cc:43-108 | only an unfinished line is kept between arrivals |
| SseStream.AssembledIsDeltas | src/ai/OpenAIClient.cc:97-102 | the assembled text is the deltas delivered, none empty, in order |
| Workflow.EvidenceReasons | agent/backend/app/graph/nodes/workflow.py:156-186 | in every run the web is searched for evidence once at most and only if available and either required or all rewrites failed; a question is rewritten only after a bad grade, and refused only with the rewrites spent and the web shut |
| Workflow.GradeDecides | agent/backend/app/graph/nodes/workflow.py:142-174 | from every grading in every run: what follows the grade, by policy, rewrites left and whether the web is there |
| Workflow.RoutedRight | agent/backend/app/graph/nodes/workflow.py:65-68 | a run goes where its intent says, and a web request is answered from the web unless kept local |
| Workflow.CriticDecides | agent/backend/app/graph/nodes/workflow.py:361-383 | in every run research goes on after a review if and only if neither budget is spent and the critic asks for more or, without a model, it was the first iteration |
| Workflow.PendingExactly | agent/backend/app/graph/nodes/workflow.py:305-317 | a decision puts up its allowed calls in order, as many as the budget leaves |
| Workflow.ActOnCalls | agent/backend/app/graph/nodes/workflow.py:334-351 | the loop over tool calls computes the round's observations |
| Workflow.StepKeeps | agent/backend/app/graph/builder.py:59-111 | every node keeps all budgets and leaves fewer rounds, whatever is answered |
| Workflow.Terminates | agent/backend/app/graph/builder.py:59-111 | every run ends within a bound computed from the configuration |
| Workflow.BoundAttained | agent/backend/app/graph/builder.py:59-111 | and, where the tool budget covers the iterations, some run takes that many nodes |
| Workflow.CanFinish | agent/backend/app/graph/builder.py:59-111 | from every state of every run some answers bring it to its end within the bound |
| Workflow.Budgets | agent/backend/app/graph/nodes/workflow.py:156-186 | rewrites, evidence searches (none under local_only), iterations and tool calls stay within their budgets in every run |
| Numbers.TextOne | agent/backend/app/graph/nodes/common.py:56-57 | the text of null, a boolean, an int or a float names that value and its kind |
| Numbers.TextReads | agent/backend/app/graph/nodes/common.py:56-57 | the text of an int or a finite float is a JSON number (section 6 of RFC 8259) that reads as its value, with an exponent exactly below 0.0001 and from 10^16 on |
| Numbers.EqualTextIff | agent/backend/app/graph/nodes/common.py:56-57 | equal ones have the same text if and only if they are of one kind, zeros signed alike |
| Numbers.SmallFloatEqual | agent/backend/app/graph/nodes/common.py:56-57 | for one digit n the int n and the float n.0, by the rounding of binary64 and the shortest decimal of repr, are equal |
| Json.PrintOne | agent/backend/app/graph/nodes/common.py:56-57 | a JSON text can be read in one way only, whatever follows it |
| Json.TextIff | agent/backend/app/graph/nodes/common.py:56-57 | two values have the same text if and only if they are equal, with numbers of the same kinds and keys in the same order |
| Json.OneOrder | agent/backend/app/graph/nodes/common.py:56-57 | equal values whose keys follow one order, at every depth, list them in the same order |
| Json.OneTyping | agent/backend/app/graph/nodes/common.py:56-57 | equal values that give each key one kind of number have numbers of the same kinds |
| Workflow.SignatureInjective | agent/backend/app/graph/nodes/workflow.py:334-339 | equal signatures mean the same tool and arguments |
| Workflow.SignatureIff | agent/backend/app/graph/nodes/workflow.py:334-339 | a signature is shared exactly by calls of one tool with equal arguments in the same form |
| Workflow.ObserveRight | agent/backend/app/graph/nodes/workflow.py:338-351 | within a round nothing taken runs, nothing runs twice, exactly the writes not approved are refused |
| Workflow.RefusedIff | agent/backend/app/graph/nodes/workflow.py:319-351 | in every run a call is refused exactly if it writes and was not approved |
| Workflow.ToolsOnce | agent/backend/app/graph/nodes/workflow.py:319-359 | in every run no call is executed again, or after a refusal, in the same form; writes only after approval, calls within budget |
| Workflow.CaughtIff | agent/backend/app/graph/nodes/workflow.py:334-351 | in every run a call not refused is executed if and only if no earlier one was the same pair in the same form |
| Workflow.FixedFormOnce | agent/backend/app/graph/nodes/workflow.py:334-351 | with one key order and one kind of number per key no (tool, arguments) pair is executed twice or after a refusal |
| Workflow.OtherFormRunsTwice | agent/backend/app/graph/nodes/workflow.py:334-351 | wherever the budget allows two calls, any equal pair in two forms is executed twice by some run |
| Workflow.OtherFormRunsAfterRefusal | agent/backend/app/graph/nodes/workflow.py:334-351 | with a second round left, any equal writing pair in two forms is executed by some run after the user refused the first |
| Workflow.ReminderInBothOrders | agent/backend/app/graph/nodes/workflow.py:319 | a reminder with its two arguments in either order is such a pair |
| Workflow.UpdateInBothKinds | agent/backend/app/tools/research.py:56-64 | so are updates of a day as 1 and 1.0, and of a flag as true and 1 |
| Workflow.SkippedMeansRepeated | agent/backend/app/graph/nodes/workflow.py:342-343 | a call is skipped as a repetition only if the same one came before |
| Workflow.EndsFinalizedIff | agent/backend/app/graph/builder.py:59-111 | a run that is over has a final answer if and only if it did not plan research without a task |
| Workflow.EmptyPlanEndsSilently | agent/backend/app/graph/builder.py:102-103 | and some run does plan none and ends without an answer |
| Workflow.PlanSavedIff | agent/backend/app/graph/nodes/workflow.py:227-244 | in every run a plan is saved if and only if the run is past saving it and the answer at ApprovePlan itself was an approval, or none is required |
| ConversationService.Database.AddConversationMessage | agent/backend/app/db/database.py:482-497 | stores the message under the thread's next number |
| ConversationService.Database.SaveConversationSummary | agent/backend/app/db/database.py:530-546 | inserts or replaces the thread's summary and raises its version |
| ConversationService.ConversationService.MaybeSummarize | agent/backend/app/conversation/service.py:67-81 | the effect on the tables is that of the value model |
| ConversationService.ConversationService.CompleteTurn | agent/backend/app/conversation/service.py:34-37 | stores a non-empty answer, then summarises |
| ConversationService.ConversationService.Context | agent/backend/app/conversation/service.py:39-49 | the longest end of the thread within both limits, but at least its newest message |
| ConversationMemory.SummarizeExactly | agent/backend/app/conversation/service.py:67-81 | which messages a call folds, if any, past the 1000-row limit too |
| ConversationMemory.EstimateExactly | agent/backend/app/conversation/service.py:146-149 | a text counts one token for each character of U+4E00 to U+9FFF and one for every four others, begun or whole, and at least one |
| ConversationMemory.MessageStored | agent/backend/app/db/database.py:482-497 | a message is stored last in its thread, under the next number and with its estimate; no summary changes |
| ConversationMemory.TurnStored | agent/backend/app/conversation/service.py:34-37 | a turn ends with its answer stored unless it is empty |
| ConversationMemory.SummariesHaveNoGaps | agent/backend/app/conversation/service.py:67-81 | in every run messages are numbered 1..n, those up to through_sequence are folded once each in order, and recent_limit are left |
| ConversationMemory.StepIsLocal | agent/backend/app/db/database.py:482-546 | through_sequence never decreases and other threads are untouched |
| OverlappingTurns.AloneIsSummarize | agent/backend/app/conversation/service.py:67-81 | a call nothing overlaps is the maybe_summarize of ConversationMemory |
| OverlappingTurns.OverlapsLeaveNoGaps | agent/backend/app/conversation/service.py:67-81 | however calls overlap, a stored summary stands for the messages up to through_sequence, once each in order; its version counts the calls in it if and only if none stored over a summary it had not read |
| OverlappingTurns.SaveMoves | agent/backend/app/db/database.py:530-546 | through_sequence moves to the end of what the call folded: forward if the summary it read is still there, back only over one it has not read |
| OverlappingTurns.OverlapMovesBack | agent/backend/app/conversation/service.py:67-81 | a run in which two calls fold the same message and through_sequence moves back |
| ConversationMemory.KeepsOne | agent/backend/app/conversation/service.py:43-48 | the window's rules leave one choice |
| ConversationMemory.BudgetIff | agent/backend/app/conversation/service.py:43-48 | the window is within the token budget exactly when the newest message is |
| ConversationMemory.RowLimitHarmless | agent/backend/app/conversation/service.py:41 | reading only the newest rows does not change the window |
| Ndcg.ComputeDcg | agent/evals/rag/metrics/retrieval.py:16-21 | the loop computes the discounted gain and the set of names found |
| Ndcg.ComputeIdcg | agent/evals/rag/metrics/retrieval.py:22-23 | the ideal gain |
| Ndcg.DcgAtMost | agent/evals/rag/metrics/retrieval.py:16-23 | gains in the order found are worth no more than as many in the first ranks |
| Ndcg.NdcgBounded | agent/evals/rag/metrics/retrieval.py:9-30 | NDCG is within [0, 1] for every ranking, relevance set and k |
| Ndcg.NdcgOneIff | agent/evals/rag/metrics/retrieval.py:9-30 | it is 1 exactly when k is positive and distinct relevant names fill the leading ranks |
| Ndcg.SwapPays | agent/evals/rag/metrics/retrieval.py:9-30 | among distinct names, exchanging one that is not relevant with a relevant one below it always raises NDCG |
| Ndcg.NdcgSingle | agent/evals/rag/metrics/retrieval.py:9-30 | with one relevant name NDCG is the discount at its first rank over that at rank 1 |
| Ndcg.OthersBounded | agent/evals/rag/metrics/retrieval.py:24-28 | hit, recall and reciprocal rank are within [0, 1] and agree on zero |
| Ndcg.SharesExactly | agent/evals/rag/metrics/retrieval.py:24-27 | hit is 1 or 0 as a relevant name is ranked or not; recall and precision are the relevant names found over those there are and over k |
| Ndcg.RecallOneIff | agent/evals/rag/metrics/retrieval.py:24-27 | recall is 1 exactly when every relevant name is found |
| Ndcg.MrrExactly | agent/evals/rag/metrics/retrieval.py:14-28 | the reciprocal rank is that of the first relevant name |
| Ndcg.MrrDecreases | agent/evals/rag/metrics/retrieval.py:14-28 | and decreases with that rank |
| Ndcg.PrecisionBoundedIff | agent/evals/rag/metrics/retrieval.py:9-30 | precision is at most 1 for every ranking and relevance set, if and only if k is not negative |
| Ndcg.PrecisionAboveOne | agent/evals/rag/metrics/retrieval.py:9-30 | every negative k makes it 2 for some ranking |

## Left out

- Reactor.Loop.DoPendingFunctors: what a functor itself does is not part of the call; its pushes and wake-ups are separate steps of the state machine, which says what threads do between two statements.
- AsyncLogging.AsyncLogging.Append: the logger's fields hold the content of each buffer rather than the buffer object; that no two pointers share a buffer is taken from `unique_ptr`.
- Sockets, epoll, libcurl, files, clocks and the thread scheduler are arbitrary answers or steps; poll time-outs, timed waits and log rolling are part of that.
- The cross-thread branch of `TcpConnection::send` and `sendFile`: no caller in the server uses them, and they turn on pointer lifetimes.
- TcpOutput.CallbacksTellTheTruth: both callbacks are taken to be registered; an unregistered one is simply not queued.
- SlabPool.NeverOverlap: the pool is used by one thread at a time; the race at memory/memoryPool.cc:99, where freeList_ is cleared outside its own mutex, is not modelled.
- SlabPool.WriteKeeps: memory is modelled in 8-byte words, so owners write whole words.
- HashBucket.NoOverlap: requests above 512 bytes go to `operator new` and are only routed, in PadPointer.SizeClass.
- LfuCache: the null tests on smart pointers in FreqList, the mutex around get and put, and the sharded KHashLfuCache.
- LfuCache.KLfuCache.Put: the average is an unsigned division in the source and an integer division here; they differ for a negative total, which only limits outside 2 to 250 can reach, and LfuLimits.ExactIff does not turn on it.
- LfuLimits.CountersBounded: counters are unbounded integers; the bound shows that a C++ int cannot overflow before 2^31 operations.
- HttpParser.AnyFragmentation: a request object is a value assigned field by field inside the parser object; HTTP pipelining, routing and static files are not modelled.
- HttpRoundTrip.AtoiSigned: the C standard leaves atoi beyond an int open; it is taken as a strtol of 64 bits cut to 32, as glibc has it.
- StreamServer.ReadableIff: a client is taken to send no request after one that asked to close the connection (section 9.6 of RFC 9112); the JSON route and static files, which send one buffered response, and an exception escaping a functor are not modelled.
- Gateway.EndToEnd: promises nothing about the bytes behind a send answered with a fault; TcpOutput.KernelAccounts says how many are lost then, and TcpOutput.Conservation what is kept.
- StreamEvents.ChatRelays: a JSON text is opaque, but holds no line end, as the library's dump escapes them; the bytes an agent relays are events of the agent's making.
- Workflow.Terminates: the graph library's own limit on rounds per call, parallel scheduling of research workers (one round here) and the text of prompts and answers are not modelled.
- Json.TextIff: a value that is not JSON, printed by `default=str`, does not come out of `json.loads`; two NaN count as equal, as dictionaries compare them by identity.
- Workflow.Budgets: local_only restricts the evidence path only; the research loop may search the web under it, as the source allows.
- ConversationMemory.SummariesHaveNoGaps: takes a thread's turns one after another; OverlappingTurns lets them overlap between transactions, each of which is one step there; importing a client's history is a sequence of ordinary additions.
- Ndcg.NdcgBounded: real numbers, so rounding is not modelled.
- TimerQueue (never constructed), JSON contents, vector search, full-text search, schedulers, Skill packages and front ends.
