# Verification of the web server's own logic

This project models the parts of the server that are its own algorithms rather than
system calls, and proves what they are for.  Every statement holds for all inputs or all
runs; Dafny checks it.  `dafny verify dfyconfig.toml` checks the whole project.

How the models are built:

- **Protocols between threads** are state machines.  A step is one atomic access, or what
  one thread does under one hold of a lock; a run is any list of steps of any threads, so
  theorems about runs cover all interleavings under sequential consistency.  Fields called
  history are written by steps and never consulted by them.
- **Loops and objects** are methods and classes over the fields the source has, each proved
  against a function or a protocol step; the laws are then lemmas about those functions.
- **Laws** about a function are stated on its inputs and outputs, with the numbers and texts
  of the source written out, and do not mention the function's own parts.
- **The outside world** is an oracle: the chunks a socket delivers, how much a send accepts,
  which channel is ready, the completions of the kernel, clock readings, the file system.

The files:

| file | what it models |
|---|---|
| `LogQueue.dfy`, `LogQueueMachine.dfy`, `LogQueueAlone.dfy`, `LogRing.dfy`, `Bits.dfy` | the lock-free log queue: all interleavings, 64-bit counters, one thread left alone, and the loops of one thread |
| `Logger.dfy`, `LoggerAlone.dfy` | producers, worker and shutdown of the logger built on it; one log call left alone |
| `Text.dfy`, `Decimal.dfy`, `FixedBuffer.dfy` | searching and trimming, decimal printing and reading, the log buffer |
| `HttpParse.dfy`, `HttpHead.dfy`, `HttpConnection.dfy`, `HttpResponse.dfy` | the HTTP/1.1 pipeline: incremental parser, printer, connection loop, response framing |
| `HttpLaws.dfy`, `ResponseLaws.dfy` | what messages say, read off their text: declared bodies, staying open, and the response to each kind of request |
| `WebBench.dfy`, `ClientLaws.dfy`, `EndToEnd.dfy` | the benchmark client's request printer, its requests letter by letter, and client against server |
| `EventLoop.dfy` | pending functors and the eventfd wake-up |
| `RotatingLog.dfy`, `LogWriter.dfy` | the asynchronous log with rotating buffers, and its writer left alone |
| `TaskRing.dfy`, `ThreadPool.dfy` | the thread pool's ring, workers and shutdown |
| `Scheduler.dfy`, `SchedulerRounds.dfy` | the coroutine scheduler's ready, post and completion queues, and its loop left alone |
| `Timers.dfy` | connection timers with lazy deletion |
| `HeaderMachine.dfy`, `HeaderPieces.dfy`, `HeaderErrors.dfy` | the epoll server's header state machine, called once, called twice, and what it refuses |
| `PartialWrite.dfy` | the partial-write loops |
| `Basics.dfy` | options and concatenation |

Where the code and its description differ, the model follows the code:

- The repository's README calls the log queue single-producer/single-consumer; its
  compare-and-swap loops admit any number of both, and that is what is proved.
- The queue's constructor admits a capacity of one, for which the queue overwrites entries
  and a pop can spin: `ConservationNeedsTwoSlots` says exactly which capacities work.
- The end of a message is a 64-bit sum that can wrap; `StableIffFits` and `ProgressIffFits`
  say that the parser is stable and makes progress exactly when it does not.
- `write_all` returns without a sign when a send accepts nothing, and the connection loop
  goes on with the next request behind a reply cut short (`NextFollowsCutReply`); complete
  replies are delivered exactly when every send that is made accepts something.
- A functor that the loop's own thread queues outside handlers and functors, with no wake-up
  due, is slept on; `SleptOnIffUntimely` gives the exact condition.  `handleExpired` queues none (WebServer/HttpData.cpp:607-611).
- A `quit` before `loop` is forgotten (`EarlyQuitIsForgotten`).
- The rotating log does not drain what is left when `running_` becomes false:
  `CompleteIffDrainedAtStop` says at which moments stop loses nothing.  It drops lines that would fill a whole
  buffer (`LongLineIsDropped`).
- A second `threadpool_destroy` leaves with the lock held: `LockStuckIffTwoDestroys`.
- `run` drains its queues once after stop; what is started or still awaiting then is never
  resumed (`LeftAtEnd`, `StopLeavesAwaiting`).
- A coroutine that awaits an operation is not destroyed by the scheduler when it finishes
  (`DestroyedIffNeverAwaited`, with the run in `AwaitedIsNotDestroyed`).
- Timer arithmetic is modulo 10,000,000 ms: a timer that would run out behind the wrap
  never does (`TimesOutIffBeforeWrap`); a connection accepted in the last two seconds of a
  period is never timed out (`NewConnectionTimesOutIffEarly`, `LateConnectionStays`).
- `parseHeaders` loses its positions between calls: `PiecesReadAsWhole` says which two
  pieces of a head are read like the whole.  It also loses one byte behind the head
  (`RestSurvivesIffEmpty`).

## Model

| member | source | states |
|---|---|---|
| `LogQueue.StepInv` | WebServer/coroutineWebServer/AsyncLogger.cpp:23-61 | every atomic access of push and pop, by any thread, with a compare-and-swap that may fail for no reason, keeps the ticket/sequence/payload invariant of a ring of two or more slots |
| `LogQueue.Fifo` | WebServer/coroutineWebServer/AsyncLogger.cpp:23-61 | in every interleaving the value a pop takes for ticket p is the value the push that claimed ticket p stored; a claimed ticket not yet taken belongs to a pop still running; 0 <= tail - head <= N |
| `LogQueue.FifoAtRest` | WebServer/coroutineWebServer/AsyncLogger.cpp:23-61 | when no thread is inside push or pop, the values taken are exactly the first head values pushed: no loss, no duplicate, no reordering |
| `LogQueue.PayloadSurvives` | WebServer/coroutineWebServer/AsyncLogger.cpp:30-32 | from publication until it is exchanged out, a payload stays in its slot with sequence p + 1: nothing overwrites it |
| `LogQueue.SequencesTell` | WebServer/coroutineWebServer/AsyncLogger.cpp:26-33 | in every reachable state a slot's sequence number is p, p + 1 or p + N according to what has become of its ticket |
| `LogQueue.SlotExclusion` | WebServer/coroutineWebServer/AsyncLogger.cpp:30-33 | two threads between their winning compare-and-swap and their sequence store never work on the same slot |
| `LogQueue.PushFailsOnlyWhenFull` | WebServer/coroutineWebServer/AsyncLogger.cpp:35-36 | push returns false only at the newest ticket, and only while the ticket N earlier is not recycled |
| `LogQueue.PushFailsOnlyWhenNearlyFull` | WebServer/coroutineWebServer/AsyncLogger.cpp:35-36 | with one consumer, push returns false only when at least N - 1 entries are waiting |
| `LogQueue.PopFailsOnlyWhenNothingIsReady` | WebServer/coroutineWebServer/AsyncLogger.cpp:46-59 | pop of entries that are not null returns false only when the queue is empty or the oldest ticket is claimed and unpublished |
| `LogQueue.ConservationNeedsTwoSlots` | WebServer/coroutineWebServer/AsyncLogger.cpp:13-21 | published entries are never overwritten, in all runs, if and only if the capacity is at least two; the constructor also admits one |
| `LogQueue.OneSlotOverwrites` | WebServer/coroutineWebServer/AsyncLogger.cpp:13-21 | with capacity one, two pushes in a row succeed and the second destroys the first |
| `LogQueue.IndexIsModulo` | WebServer/coroutineWebServer/AsyncLogger.cpp:26-26 | the slot of a position is its remainder modulo the number of slots |
| `LogQueue.IndexSeparates` | WebServer/coroutineWebServer/AsyncLogger.cpp:26-26 | positions less than N apart use different slots |
| `LogQueue.TailIsFree` | WebServer/coroutineWebServer/AsyncLogger.cpp:29-31 | a push whose claim succeeds finds its slot recycled |
| `LogQueue.HeadIsPublished` | WebServer/coroutineWebServer/AsyncLogger.cpp:49-51 | a pop whose claim succeeds finds its ticket published |
| `LogQueueAlone.PushAlone` | WebServer/coroutineWebServer/AsyncLogger.cpp:23-41 | from every reachable state, with the other threads stopped anywhere, a push by itself needs five accesses at most: it publishes its entry under the next ticket if and only if the slot was never used or its last ticket has been recycled, and otherwise returns false and changes nothing |
| `LogQueueAlone.PopAlone` | WebServer/coroutineWebServer/AsyncLogger.cpp:43-61 | likewise a pop takes the oldest entry, and leaves a null payload and the sequence of the ticket N later, if and only if that entry has been published; otherwise it returns false and changes nothing |
| `LogQueueAlone.SpuriousFailureRetries` | WebServer/coroutineWebServer/AsyncLogger.cpp:30-30 | a weak compare-and-swap that fails for no reason changes nothing but the position its thread looks at next |
| `LogQueueMachine.MachineRefines` | WebServer/coroutineWebServer/AsyncLogger.cpp:23-61 | with 64-bit counters, a mask and a two's complement difference, every run gives exactly the image of the unbounded queue's run, across counter overflow, if no thread keeps a position for 2^63 - N claims |
| `LogQueueMachine.MachineRunsRefine` | WebServer/coroutineWebServer/AsyncLogger.cpp:13-61 | the same from the constructor on, for every power-of-two capacity from 2 up to 2^62 |
| `LogQueueMachine.MaskSelects` | WebServer/coroutineWebServer/AsyncLogger.cpp:14-26 | pos & mask_ selects the slot of the unbounded ticket, although pos has been cut to 64 bits |
| `LogQueueMachine.SignedIsExact` | WebServer/coroutineWebServer/AsyncLogger.cpp:28-28 | the signed difference of two cut counters is the true difference while that is less than 2^63 in size |
| `LogQueueMachine.SequenceNearby` | WebServer/coroutineWebServer/AsyncLogger.cpp:27-28 | the sequence number a thread reads is never 2^63 away from its position, if the position is fresh |
| `Bits.CapacityTest` | WebServer/coroutineWebServer/AsyncLogger.cpp:15-15 | the constructor's bit test accepts exactly the powers of two |
| `Bits.MaskIsModulo` | WebServer/coroutineWebServer/AsyncLogger.cpp:26-26 | and-ing with 2^k - 1 is the remainder modulo 2^k |
| `LogRing.Ring.Create` | WebServer/coroutineWebServer/AsyncLogger.cpp:13-21 | an object exists exactly for power-of-two capacities, with the sequence numbers 0, 1, 2, ... and no entries |
| `LogRing.Ring.Push` | WebServer/coroutineWebServer/AsyncLogger.cpp:23-41 | used by one thread at a time, the loop appends the entry to the contents, or returns false and changes nothing exactly when a ring of two or more slots is full; on one slot it always succeeds and overwrites |
| `LogRing.Ring.Pop` | WebServer/coroutineWebServer/AsyncLogger.cpp:43-61 | used by one thread at a time, the loop removes the oldest entry, or returns false and changes nothing when there is none |
| `LogRing.SingleSlotSpins` | WebServer/coroutineWebServer/AsyncLogger.cpp:44-60 | on one slot that has been overwritten, a pop alone re-reads the counter for ever |
| `LogRing.Ring.CompareExchangeTail` | WebServer/coroutineWebServer/AsyncLogger.cpp:30-30 | the weak compare-and-swap: on failure it reports the counter and may fail although they agree |
| `LogRing.Appends` | WebServer/coroutineWebServer/AsyncLogger.cpp:30-32 | storing payload and sequence at the tail appends one entry to the ring's contents |
| `LogRing.Removes` | WebServer/coroutineWebServer/AsyncLogger.cpp:50-52 | taking payload and advancing the sequence at the head removes the first entry |
| `Logger.EveryLineOnce` | WebServer/coroutineWebServer/AsyncLogger.cpp:85-195 | if all log calls happen between start and stop, then after stop the sink holds the line of every call, at exactly one place |
| `Logger.QueueKeepsOrder` | WebServer/coroutineWebServer/AsyncLogger.cpp:99-195 | lines that one producer sent through the queue stand in the sink in the order of its calls |
| `Logger.NothingLost` | WebServer/coroutineWebServer/AsyncLogger.cpp:99-195 | at every moment a finished log call's line is in the queue, in the worker's hands or in the sink |
| `Logger.WorkerReturns` | WebServer/coroutineWebServer/AsyncLogger.cpp:160-195 | once stop has been called, the worker's own steps take it to its return from wherever it is |
| `Logger.StopDeliversEverything` | WebServer/coroutineWebServer/AsyncLogger.cpp:85-97 | when no log call is under way, stop and the worker alone bring the line of every call so far to the sink |
| `Logger.StepInv` | WebServer/coroutineWebServer/AsyncLogger.cpp:99-195 | every step of producers, worker and stop keeps the record of where each line is |
| `LoggerAlone.RoomQueuesAtOnce` | WebServer/coroutineWebServer/AsyncLogger.cpp:99-107 | while the queue has room, a log call left alone queues its line at the first attempt and returns |
| `LoggerAlone.FullQueueWritesDirectly` | WebServer/coroutineWebServer/AsyncLogger.cpp:99-107 | while the queue is full and nobody makes room, a log call tries sixteen times, no more and no less, and then writes its line to the sink |
| `LoggerAlone.LogReturns` | WebServer/coroutineWebServer/AsyncLogger.cpp:99-107 | from every reachable state a log call comes to its end by its own steps, with its line in the queue or in the sink |
| `Text.FindFrom` | WebServer/coroutineWebServer/HttpServer.cpp:300-344 | std::string::find: the first occurrence at or after a position, or proof that there is none |
| `Text.ToLower` | WebServer/coroutineWebServer/Types.h:84-88 | maps each byte to lower case |
| `Text.TrimMeaning` | WebServer/coroutineWebServer/Types.h:90-100 | trim removes white space from both ends, and nothing else, and leaves none there |
| `Text.TrimLoop` | WebServer/coroutineWebServer/Types.h:90-100 | the two index loops compute that |
| `Text.TrimStrips` | WebServer/coroutineWebServer/Types.h:90-100 | the six blanks of the C locale, in any number at both ends, are what trim removes |
| `Text.LowersLetters` | WebServer/coroutineWebServer/Types.h:84-88 | each of the 26 capitals goes to its small letter and every other byte stays |
| `HttpParse.StripQuery` | WebServer/coroutineWebServer/HttpServer.cpp:173-178 | the longest prefix without a question mark |
| `HttpParse.LineEndsInside` | WebServer/coroutineWebServer/HttpServer.cpp:334-342 | inside the header loop a line end is always found, strictly behind its start and at or before header_end: both breaks are unreachable |
| `HttpParse.NextToken` | WebServer/coroutineWebServer/HttpServer.cpp:312-322 | the cursor loops skip blanks and then cut a word |
| `HttpParse.HeaderLoop` | WebServer/coroutineWebServer/HttpServer.cpp:334-351 | the cursor loop over the lines builds the map in which the first of equal keys wins |
| `HttpParse.TryParseRequest` | WebServer/coroutineWebServer/HttpServer.cpp:299-369 | the parser as written computes, on every buffer, the parse that the laws about printed and unprinted messages are proved for |
| `HttpParse.ParseIsStable` | WebServer/coroutineWebServer/HttpServer.cpp:299-369 | a request parsed from a buffer is parsed the same from every extension, with header_end + 4 <= consumed <= size, if head and body end below 2^64 |
| `HttpParse.StableIffFits` | WebServer/coroutineWebServer/HttpServer.cpp:362-367 | the parse is the same on every extension if and only if the 64-bit sum of head and body length does not wrap |
| `HttpParse.MalformedStaysMalformed` | WebServer/coroutineWebServer/HttpServer.cpp:301-360 | a complete head that is malformed stays unparsable whatever follows |
| `HttpParse.ParsesWhenComplete` | WebServer/coroutineWebServer/HttpServer.cpp:362-365 | a well-formed head is parsed exactly when the whole body has arrived |
| `HttpParse.WrappedBodyGrows` | WebServer/coroutineWebServer/HttpServer.cpp:362-367 | when the sum wraps, one more byte changes the parsed request |
| `HttpLaws.ThreeWords` | WebServer/coroutineWebServer/HttpServer.cpp:311-331 | a request line may have any number of blanks before and between its three words, and anything behind a blank after them |
| `HttpLaws.TwoWords` | WebServer/coroutineWebServer/HttpServer.cpp:329-331 | a line of fewer than three words is no request line |
| `HttpLaws.HeaderLineReads` | WebServer/coroutineWebServer/HttpServer.cpp:343-349 | a header line is read without the white space around name and value, the name in lower case, unless that name is there already |
| `HttpLaws.LineWithoutColon` | WebServer/coroutineWebServer/HttpServer.cpp:344-345 | a header line without a colon changes nothing |
| `HttpHead.BlankLineEnds` | WebServer/coroutineWebServer/HttpServer.cpp:300-303 | in a printed head the first blank line is the one that ends it |
| `HttpHead.HeadersVisitLines` | WebServer/coroutineWebServer/HttpServer.cpp:334-351 | the header loop visits exactly the printed lines, in order |
| `HttpHead.RequestLineInverts` | WebServer/coroutineWebServer/HttpServer.cpp:311-331 | the request line reads back as its three words |
| `HttpHead.LengthFieldReads` | WebServer/coroutineWebServer/HttpServer.cpp:353-360 | a printed Content-Length survives trimming and std::stoul reads back the number |
| `HttpHead.HeadInverts` | WebServer/coroutineWebServer/HttpServer.cpp:299-351 | first line and fields read back from a printed head, whatever follows |
| `HttpHead.ParseInvertsPrint` | WebServer/coroutineWebServer/HttpServer.cpp:299-369 | a printed request whose fields declare the length of its body, followed by anything, is parsed to its words, fields and body, and exactly its bytes are taken |
| `HttpHead.FirstCounts` | WebServer/coroutineWebServer/HttpServer.cpp:344-349 | of the fields of one name, in any case, the first counts, whatever stands before and behind it |
| `HttpLaws.FirstLengthDecides` | WebServer/coroutineWebServer/HttpServer.cpp:353-360 | the first field named content-length, in any case, decides the declared length: what strtoul makes of its value, or no request |
| `HttpLaws.DeclaredBodyIsRead` | WebServer/coroutineWebServer/HttpServer.cpp:353-368 | for any other fields before and behind the Content-Length that counts the body, that body is read and exactly the message is taken |
| `HttpLaws.NoLengthNoBody` | WebServer/coroutineWebServer/HttpServer.cpp:353-368 | without a Content-Length the body is empty and only the head is taken |
| `HttpLaws.BadLengthIsRefused` | WebServer/coroutineWebServer/HttpServer.cpp:354-360 | a first Content-Length without a digit where the number should start, or of 2^64 and more, is never parsed, whatever follows |
| `HttpConnection.ChunkingIsIrrelevant` | WebServer/coroutineWebServer/HttpServer.cpp:371-399 | repeated read_request yields the requests and the leftover of the whole stream, however it was cut into chunks |
| `HttpConnection.AnyTwoChunkings` | WebServer/coroutineWebServer/HttpServer.cpp:371-399 | any two ways of cutting a stream give the same requests and the same leftover |
| `HttpConnection.Connection.ReadRequest` | WebServer/coroutineWebServer/HttpServer.cpp:371-399 | returns the first request of the stream and leaves the rest; gives up only when the stream holds none |
| `HttpConnection.Connection.WriteAll` | WebServer/coroutineWebServer/HttpServer.cpp:401-417 | exactly a prefix of the payload is sent, and all of it if and only if every send that is made for it accepts something |
| `HttpConnection.Connection.HandleConnection` | WebServer/coroutineWebServer/HttpServer.cpp:419-448 | the bytes sent are the first bytes of the replies to the requests of the stream, in order, up to and including the first that does not stay open (AnsweredUntilClose), and the complete replies if and only if every send that is made accepts something; none is skipped unless a send fails |
| `HttpConnection.CompleteIffAllDelivered` | WebServer/coroutineWebServer/HttpServer.cpp:407-415 | a conversation delivers the complete replies if and only if every send that is made accepts something |
| `HttpConnection.NextFollowsCutReply` | WebServer/coroutineWebServer/HttpServer.cpp:411-441 | a reply can be cut short after one byte and the whole next reply follow it |
| `HttpConnection.DeliveredUntil` | WebServer/coroutineWebServer/HttpServer.cpp:407-415 | accepted counts add up until a send fails, accepts nothing or completes the payload; only one that fails counts as a failure |
| `HttpConnection.NothingFollowsError` | WebServer/coroutineWebServer/HttpServer.cpp:408-446 | after a send that fails the peer receives nothing more |
| `HttpConnection.Connection.ServeNext` | WebServer/coroutineWebServer/HttpServer.cpp:424-441 | one turn answers the next request of the stream and goes on exactly when that stays open (KeepAliveIffStaysOpen) and no send failed |
| `HttpLaws.KeepAliveIffStaysOpen` | WebServer/coroutineWebServer/Types.h:113-125 | a request keeps its connection open if and only if its Connection value does not contain close, in any case, and contains keep-alive or the version is HTTP/1.1 |
| `HttpLaws.AnsweredUntilClose` | WebServer/coroutineWebServer/HttpServer.cpp:424-441 | exactly the requests up to and including the first that does not stay open are answered |
| `HttpLaws.CloseCloses` | WebServer/coroutineWebServer/Types.h:116-118 | a Connection value with close anywhere in it, in any case, ends the connection behind its reply, under every version |
| `HttpLaws.KeepAliveKeeps` | WebServer/coroutineWebServer/Types.h:119-121 | a value with keep-alive and without close keeps it open, under every version |
| `HttpLaws.VersionDecides` | WebServer/coroutineWebServer/Types.h:124-124 | with neither word, or no field, it stays open exactly under HTTP/1.1 |
| `HttpLaws.AnswerTwo` | WebServer/coroutineWebServer/HttpServer.cpp:419-448 | two printed requests on one stream, in any chunks: whether the second is answered too follows from the Connection field and version that the first one prints |
| `HttpConnection.WrapTakesNothing` | WebServer/coroutineWebServer/HttpServer.cpp:362-367 | when head and declared body end at exactly 2^64 the parse succeeds and takes no byte |
| `HttpConnection.WrapHappens` | WebServer/coroutineWebServer/HttpServer.cpp:353-367 | a well-formed head with that property exists |
| `HttpConnection.ProgressIffFits` | WebServer/coroutineWebServer/HttpServer.cpp:366-380 | a successful parse takes at least its head if and only if the sum does not wrap |
| `HttpResponse.ToWireLoop` | WebServer/coroutineWebServer/Types.h:135-152 | the loop prints status line, fields, a Content-Length if none was there, a blank line and the body |
| `HttpResponse.FirstSplits` | WebServer/coroutineWebServer/Types.h:135-152 | the first response of a stream is split off exactly, by its first blank line and its Content-Length |
| `HttpResponse.WiresSplit` | WebServer/coroutineWebServer/Types.h:135-152 | the concatenation of any responses that are not for HEAD splits back into the same heads and bodies |
| `HttpResponse.BuildIsFramed` | WebServer/coroutineWebServer/HttpServer.cpp:237-293 | every response built for a request other than HEAD has clean fields and no Content-Length of its own |
| `HttpResponse.ResponseSaysWhetherItCloses` | WebServer/coroutineWebServer/HttpServer.cpp:237-240 | the Connection field a recipient reads is keep-alive exactly when the server goes on reading, else close |
| `HttpResponse.LengthIsLast` | WebServer/coroutineWebServer/Types.h:144-146 | the Content-Length a recipient reads is the printed body size |
| `HttpResponse.AnsweredArePrefix` | WebServer/coroutineWebServer/HttpServer.cpp:424-441 | requests are answered in order without gaps; only the last answered one closes |
| `HttpResponse.RepliesAreWires` | WebServer/coroutineWebServer/HttpServer.cpp:434-436 | what the connection sends is the concatenation of the printed responses |
| `HttpResponse.ClientReadsResponses` | WebServer/coroutineWebServer/HttpServer.cpp:237-293 | a client that sends no HEAD reads one message per answered request, in order; what each says is stated case by case in ResponseLaws |
| `ResponseLaws.PostEchoes` | WebServer/coroutineWebServer/HttpServer.cpp:242-247 | a client reads, for POST, HTTP/1.1 200 OK, plain text and the body it sent |
| `ResponseLaws.HelloGreets` | WebServer/coroutineWebServer/HttpServer.cpp:249-254 | for /hello, 200 and the greeting |
| `ResponseLaws.FileIsServed` | WebServer/coroutineWebServer/HttpServer.cpp:266-286 | for a file that is found, 200, its media type and its content |
| `ResponseLaws.MissingIsNotFound` | WebServer/coroutineWebServer/HttpServer.cpp:267-281 | for a file that is missing, 404 Not Found, except 200 and the icon text for /favicon.ico |
| `ResponseLaws.RefusedIsBadRequest` | WebServer/coroutineWebServer/HttpServer.cpp:256-264 | for a path that is refused, 400 Bad Request |
| `ResponseLaws.HeadIsHeadOfGet` | WebServer/coroutineWebServer/Types.h:147-151 | for HEAD, the very head that GET would bring, and no body |
| `ResponseLaws.LengthOnlyIfMissing` | WebServer/coroutineWebServer/Types.h:138-146 | a response that names its own length is printed with that; any other gets one Content-Length line behind its fields |
| `WebBench.Client.BuildRequest` | WebBench/webbench.c:223-333 | exits exactly on an invalid URL; otherwise leaves the printed request, shorter than 2048 bytes |
| `WebBench.Client.Upgrade` | WebBench/webbench.c:233-236 | the version after the upgrade rules |
| `WebBench.Client.CheckUrl` | WebBench/webbench.c:249-271 | accepts exactly http URLs of at most 1500 bytes with a slash behind the host |
| `WebBench.Client.SplitUrl` | WebBench/webbench.c:273-292 | the host ends at the first colon of the authority, or with it; the path starts at the slash |
| `WebBench.ColonInAuthority` | WebBench/webbench.c:277-279 | comparing the positions of colon and slash decides whether the authority has a colon |
| `WebBench.Sizes` | WebBench/webbench.c:55-57 | the printed request always fits its buffer of 2048 bytes |
| `ClientLaws.UrlSplits` | WebBench/webbench.c:273-292 | for every scheme, host, port and path, host and path of the URL are those, and the port is in neither |
| `ClientLaws.ValidIffParts` | WebBench/webbench.c:249-271 | the URLs that are accepted are exactly those made of http:// in any case, host, port and path, of at most 1500 bytes |
| `ClientLaws.VersionIsLeast` | WebBench/webbench.c:233-236 | the version sent is the least one that is not below the chosen one and suffices for the verb and for a forced reload through a proxy |
| `ClientLaws.RequestOnWire` | WebBench/webbench.c:238-330 | an HTTP/1.x request letter by letter, with each field line exactly when its condition holds |
| `ClientLaws.OldRequestText` | WebBench/webbench.c:238-304 | an HTTP/0.9 request is one line |
| `WebBench.ServerReadsRequest` | WebBench/webbench.c:223-333 | the server's parser reads back verb, target up to the query, version and exactly the printed fields, and takes exactly the printed bytes |
| `WebBench.FieldsRead` | WebBench/webbench.c:306-326 | the printed fields are read under their lower-case names |
| `WebBench.KeepsOpen` | WebServer/coroutineWebServer/Types.h:113-125 | the server keeps the connection open exactly for HTTP/1.1 with the client's keep flag |
| `WebBench.OldRequestIsNotRead` | WebBench/webbench.c:306-330 | an HTTP/0.9 request has no blank line and is never taken for a request |
| `EndToEnd.StreamIsRead` | WebServer/coroutineWebServer/HttpServer.cpp:371-399 | n printed requests in a row are read as n copies of what was meant, with nothing left over |
| `EndToEnd.ClientGetsItsAnswers` | WebServer/coroutineWebServer/HttpServer.cpp:419-448 | for any chunking, the client can split the replies into one message per answered request, all n if the connection is kept, else one, each the response that ResponseLaws describes |
| `EndToEnd.Converse` | WebServer/coroutineWebServer/HttpServer.cpp:419-448 | the conversation itself, over any chunks and any sends: if every send that was made accepted something, the client can split what it received into those messages |
| `EventLoop.NoLostWakeup` | WebServer/EventLoop.cpp:83-123 | in every run in which the loop thread itself queues only in time, while the loop sleeps in poll with functors pending or quit set, the eventfd is readable or some thread is about to write it |
| `EventLoop.FunctorsKeepOrder` | WebServer/EventLoop.cpp:83-123 | in every run, run functors, swapped batch and pending list together are the queued functors in lock order |
| `EventLoop.QueuedWorkRuns` | WebServer/EventLoop.cpp:92-123 | from every state of such a run in which the loop has started, has not ended and is not asked to quit, steps of the loop and writes already owed are enough to run everything queued |
| `EventLoop.StopsOnlyOnQuit` | WebServer/EventLoop.cpp:92-130 | in every run, timely or not, loop returns only if quit has been called and is still in force |
| `EventLoop.QuitStops` | WebServer/EventLoop.cpp:99-130 | from every state of a timely run inside loop with quit set, steps of the loop and writes already owed lead to its return |
| `EventLoop.LoopsBackToPoll` | WebServer/EventLoop.cpp:99-108 | without quit they lead back to the poll |
| `EventLoop.EarlyQuitIsForgotten` | WebServer/EventLoop.cpp:95-102 | a quit before loop is forgotten: the loop polls |
| `EventLoop.OtherChannelWakes` | WebServer/EventLoop.cpp:102-107 | a poll that reports any other channel returns, and everything queued by then is run |
| `EventLoop.ReadingClears` | WebServer/EventLoop.cpp:66-74 | after one report the eventfd has been read empty, and a poll sleeps until it is written again |
| `EventLoop.LateQueueIsSleptOn` | WebServer/EventLoop.cpp:83-110 | a functor queued by the loop thread from a timer's expiry or before the loop starts, with no wake-up due, is slept on |
| `EventLoop.SleptOnIffUntimely` | WebServer/EventLoop.cpp:83-110 | when the loop thread queues a functor, its own next steps can put it to sleep on work if and only if it did so outside handlers and functors with no wake-up due and the loop not ending |
| `EventLoop.StepKeepsInv` | WebServer/EventLoop.cpp:58-130 | every step of any thread, the loop thread queueing only in time, keeps the wake-up invariant |
| `EventLoop.Loop.QueueInLoop` | WebServer/EventLoop.cpp:83-90 | appends, and writes the eventfd unless the loop is sure to look again |
| `EventLoop.Loop.RunOrQueue` | WebServer/EventLoop.cpp:76-81 | the loop thread calls the functor on the spot; any other thread queues it |
| `EventLoop.Loop.DoPendingFunctors` | WebServer/EventLoop.cpp:112-123 | runs what was pending at the swap, in order, and leaves exactly what those functors queued |
| `RotatingLog.AssertsNeverFire` | WebServer/base/AsyncLogging.cpp:27-113 | in every interleaving of append with the writer no assert fires, and no buffer has two owners |
| `RotatingLog.StepKeepsRoles` | WebServer/base/AsyncLogging.cpp:27-113 | every step keeps buffer ownership exclusive, spare buffers empty, and a full buffer in the list whenever the next buffer is missing |
| `RotatingLog.LinesAreConserved` | WebServer/base/AsyncLogging.cpp:27-113 | while no swap exceeds 25 buffers, file, batch, full buffers and current buffer hold exactly the appended lines shorter than a buffer, in lock order |
| `RotatingLog.OnlyLongSwapsLose` | WebServer/base/AsyncLogging.cpp:76-90 | between swaps the file holds exactly what the swaps kept: all lines but those of buffers 2 onward of the over-long ones |
| `RotatingLog.CompleteIffDrainedAtStop` | WebServer/base/AsyncLogging.cpp:53-114 | with nothing appended after stop and no over-long swap, the file the writer leaves is complete if and only if, at the moment of stop, the writer had tested running_ and was about to swap, or no line waited |
| `RotatingLog.StepKeepsDrains` | WebServer/base/AsyncLogging.cpp:53-114 | after stop no step of the writer changes whether the waiting lines will be drained |
| `RotatingLog.StopLosesTheTail` | WebServer/base/AsyncLogging.cpp:53-114 | a line appended before stop can be missing from the file |
| `RotatingLog.LongLineIsDropped` | WebServer/base/LogStream.h:20-25 | a line that would fill a whole buffer is in no buffer and never in the file |
| `LogWriter.LongSwapKeepsTwo` | WebServer/base/AsyncLogging.cpp:76-85 | a swap of at most 25 buffers goes to the file whole, and of 26 or more only the first two |
| `LogWriter.WriterCatchesUp` | WebServer/base/AsyncLogging.cpp:53-113 | while the log runs, the writer's own steps bring everything appended so far to the file, if no swap takes more than 25 buffers |
| `LogWriter.WriterReturns` | WebServer/base/AsyncLogging.cpp:53-115 | after stop the writer's own steps lead to its return, wherever it was |
| `LogWriter.LineGoesWhere` | WebServer/base/AsyncLogging.cpp:27-41 | a line goes to the current buffer while that has more room than it needs; otherwise the current buffer joins the full ones and the line starts an empty one |
| `RotatingLog.StepKeepsLines` | WebServer/base/AsyncLogging.cpp:27-113 | every step keeps the account of all lines and of the file |
| `RotatingLog.Log.AddLine` | WebServer/base/AsyncLogging.cpp:27-41 | append as written makes exactly the protocol's step |
| `RotatingLog.Log.SwapOut` | WebServer/base/AsyncLogging.cpp:64-71 | the swap under the lock as written makes exactly the protocol's step |
| `RotatingLog.Log.WriteBatch` | WebServer/base/AsyncLogging.cpp:76-112 | the writer's work on a batch writes exactly the kept buffers and gets both spare buffers back |
| `FixedBuffer.Buffer.Append` | WebServer/base/LogStream.h:20-25 | a text is appended if it is shorter than the room left, and dropped whole otherwise |
| `FixedBuffer.Buffer.FormatInteger` | WebServer/base/LogStream.cpp:38-45 | appends the decimal text, or nothing when fewer than 32 bytes are free |
| `Decimal.Convert` | WebServer/base/LogStream.cpp:14-33 | writes the canonical decimal text and a terminator, for every signed or unsigned 64-bit value |
| `Decimal.IntTextReads` | WebServer/base/LogStream.cpp:14-33 | the text reads back as the value and has no leading zero |
| `Decimal.IntTextFits` | WebServer/base/LogStream.cpp:14-33 | text and terminator take at most 21 bytes |
| `Decimal.LastDigit` | WebServer/base/LogStream.cpp:21-22 | truncating division and remainder yield the last digit, with the sign of the value |
| `Decimal.MirroredTable` | WebServer/base/LogStream.cpp:11-23 | the mirrored digit table gives the same character for a digit and its negative |
| `Decimal.ReverseInPlace` | WebServer/base/LogStream.cpp:30-30 | the range is reversed in place and the rest of the buffer stays |
| `Decimal.StoulReads` | WebServer/coroutineWebServer/HttpServer.cpp:353-360 | std::stoul inverts decimal printing below 2^64 |
| `Decimal.StoulReadsParts` | WebServer/coroutineWebServer/HttpServer.cpp:353-360 | std::stoul on any white space, sign, digits and rest: the number, negated modulo 2^64 behind a minus, or an exception from 2^64 on |
| `Decimal.StoulNeedsDigit` | WebServer/coroutineWebServer/HttpServer.cpp:353-360 | without a digit behind white space and sign it is an exception |
| `TaskRing.TailFollows` | WebServer/ThreadPool.cpp:67-83 | the tail is count slots behind the head, around the ring |
| `TaskRing.PutHolds` | WebServer/ThreadPool.cpp:67-83 | storing at the tail appends one task to what the ring holds |
| `TaskRing.TakeHolds` | WebServer/ThreadPool.cpp:164-169 | the slot at the head has the oldest task, and taking it removes that task |
| `TaskRing.Queue.Put` | WebServer/ThreadPool.cpp:67-83 | a full queue refuses; otherwise the task is appended |
| `TaskRing.Queue.Take` | WebServer/ThreadPool.cpp:164-169 | removes and returns the oldest task |
| `ThreadPool.StepKeepsInv` | WebServer/ThreadPool.cpp:60-178 | every step of callers and workers keeps queue, places of tasks, sleepers and the number of started workers in order |
| `ThreadPool.NobodySleepsOnWork` | WebServer/ThreadPool.cpp:149-178 | while there is work or a shutdown, some living worker is not asleep, unless all have left |
| `ThreadPool.RingIndicesAgree` | WebServer/ThreadPool.cpp:60-169 | in every run tail = (head + count) mod queue_size and count <= queue_size |
| `ThreadPool.AddAnswers` | WebServer/ThreadPool.cpp:60-96 | with waiting for the accepted tasks not yet taken and size for the queue size asked for (1024 if out of range): full if and only if waiting = size, shut down or not; shut down if and only if waiting < size after a destroy; accepted, and queued, if and only if waiting < size before one |
| `ThreadPool.TakenInOrder` | WebServer/ThreadPool.cpp:164-169 | workers take tasks in the order they were accepted |
| `ThreadPool.NothingTwice` | WebServer/ThreadPool.cpp:149-172 | no task is run twice, and what is run was accepted under its number |
| `ThreadPool.GracefulRunsAll` | WebServer/ThreadPool.cpp:99-136 | after a graceful destroy that succeeds every accepted task has been run |
| `ThreadPool.ImmediateRunsOldest` | WebServer/ThreadPool.cpp:99-136 | after any destroy that succeeds, a task has been run if and only if it is not among those left in the queue |
| `ThreadPool.AcceptedWorkRuns` | WebServer/ThreadPool.cpp:149-172 | from every reachable state of a pool that is not freed, whose lock is not stuck and that is not stopped at once, the workers alone can run every accepted task |
| `ThreadPool.DestroyCanReturn` | WebServer/ThreadPool.cpp:122-145 | a first destroy can always come to its successful return |
| `ThreadPool.LockStuckIffTwoDestroys` | WebServer/ThreadPool.cpp:99-136 | the lock is left held if and only if destroy was called at least twice before the pool was freed |
| `ThreadPool.TwoDestroysStopThePool` | WebServer/ThreadPool.cpp:99-136 | after two such calls, however the run goes on, nothing is accepted, taken or freed any more |
| `ThreadPool.SignalWakes` | WebServer/ThreadPool.cpp:86-86 | a signal wakes a sleeper if there is one, and changes nobody else |
| `ThreadPool.Create` | WebServer/ThreadPool.cpp:20-58 | as many workers and slots as asked for, from 1 to 1024 and from 1 to 65535, and otherwise 4 and 1024; no worker has begun |
| `ThreadPool.SizesAsAsked` | WebServer/ThreadPool.cpp:20-58 | in every run both numbers stay |
| `ThreadPool.DestroySetsMode` | WebServer/ThreadPool.cpp:110-120 | the first destroy sets the mode it is asked for and leaves nobody asleep |
| `ThreadPool.ImmediateTakesNothing` | WebServer/ThreadPool.cpp:159-163 | from an immediate shutdown on, no task is taken or accepted in any continuation |
| `Scheduler.OnePlaceEach` | WebServer/coroutineWebServer/UringScheduler.cpp:13-31 | in every run a coroutine that is not running awaits one uncompleted operation or has exactly one queue entry, never both, and no entry is resumed that is not suspended |
| `Scheduler.ResumedOnceWithFirst` | WebServer/coroutineWebServer/UringScheduler.cpp:22-38 | however often an operation completes, its coroutine is resumed at most once, with the first result |
| `Scheduler.FirstInFirstOut` | WebServer/coroutineWebServer/UringScheduler.cpp:66-113 | resumes happen in the order of the enqueues, posted functions run in the order of the posts, none lost |
| `Scheduler.DestroyedIffNeverAwaited` | WebServer/coroutineWebServer/UringScheduler.cpp:83-91 | the scheduler destroys a finished coroutine if and only if it never awaited an operation |
| `Scheduler.AwaitedIsNotDestroyed` | WebServer/coroutineWebServer/UringScheduler.cpp:13-31 | the run of a coroutine that awaits one operation, goes on with its result and finishes: it is not destroyed |
| `Scheduler.LeftAtEnd` | WebServer/coroutineWebServer/UringScheduler.cpp:127-157 | when run returns, exactly the coroutines awaiting an uncompleted operation and those started since the last swap are left, the latter in the ready queue, and the functions posted since the last swap |
| `Scheduler.EndIsFinal` | WebServer/coroutineWebServer/UringScheduler.cpp:154-157 | after that nothing is resumed, called or completed any more |
| `Scheduler.StopLeavesAwaiting` | WebServer/coroutineWebServer/UringScheduler.cpp:127-157 | a run in which stop comes while a coroutine awaits: it is never resumed |
| `Scheduler.StepKeepsInv` | WebServer/coroutineWebServer/UringScheduler.cpp:13-157 | every step of the loop, the coroutines, the kernel and other threads keeps the invariant |
| `Scheduler.LaterCompletion` | WebServer/coroutineWebServer/UringScheduler.cpp:22-25 | a completion that is not the first changes nothing |
| `SchedulerRounds.WaitingIsServed` | WebServer/coroutineWebServer/UringScheduler.cpp:97-157 | from every state inside run that is not past its last swap of the posts, the loop's own steps call everything posted and resume everything enqueued so far, in order |
| `SchedulerRounds.StopEnds` | WebServer/coroutineWebServer/UringScheduler.cpp:127-157 | after stop the loop's own steps lead to the return of run, wherever it was |
| `SchedulerRounds.EndsOnlyOnStop` | WebServer/coroutineWebServer/UringScheduler.cpp:127-157 | in every run, run returns only if stop has been called |
| `SchedulerRounds.ReachesPolling` | WebServer/coroutineWebServer/UringScheduler.cpp:127-148 | while it runs, the loop comes back to look for completions |
| `SchedulerRounds.FirstResultIsKept` | WebServer/coroutineWebServer/UringScheduler.cpp:22-38 | the result of the first completion is the one its coroutine goes on with, in every continuation |
| `Scheduler.Uring.CompleteOne` | WebServer/coroutineWebServer/UringScheduler.cpp:22-31 | complete as written makes exactly the protocol's step |
| `Scheduler.Uring.HandleAll` | WebServer/coroutineWebServer/UringScheduler.cpp:136-147 | the loop over completions makes one step per completion, in order |
| `Timers.OneNodeEach` | WebServer/HttpData.cpp:146-153 | in every run each connection is held by at most one undeleted node, the one its timer names |
| `Timers.ClosedAtMostOnce` | WebServer/HttpData.cpp:607-616 | a connection is closed at most once and is registered exactly until then |
| `Timers.NeverEarly` | WebServer/Timer.cpp:8-41 | a timer never closes a connection before the latest deadline asked for, wrap or no wrap |
| `Timers.TimesOutIffBeforeWrap` | WebServer/Timer.cpp:8-82 | while its connection has no event, time and the timer queue can close it if and only if its node's time lies within the period of 10,000,000 ms |
| `Timers.LateNodeOutlives` | WebServer/Timer.cpp:31-82 | otherwise no passing of time and no work on the queue ever removes the node or closes the connection |
| `Timers.NewConnectionTimesOutIffEarly` | WebServer/HttpData.cpp:613-616 | a new connection whose peer stays silent is timed out if and only if it was not accepted in the last two seconds of a period |
| `Timers.LateConnectionStays` | WebServer/HttpData.cpp:613-616 | a run that accepts a connection in the last millisecond of a period: no time and no work on the queue ever closes it |
| `Timers.ValidBeforeDeadline` | WebServer/Timer.cpp:31-41 | within one period a node looks valid exactly until its deadline |
| `Timers.StepKeepsInv` | WebServer/HttpData.cpp:130-153 | every step of the connections and the timer queue keeps nodes and connections matched |
| `Timers.TimedConnections.HandleExpired` | WebServer/Timer.cpp:71-82 | the loop is a run of pops with advancing clock readings, and every node left expires later than the last reading |
| `Timers.TimedConnections.HandleConnection` | WebServer/HttpData.cpp:282-318 | the method as written makes exactly the step that ActiveIsGivenTime, LingeringHasNoTimer and OtherwiseIsClosed describe |
| `Timers.ActiveIsGivenTime` | WebServer/HttpData.cpp:282-310 | a connected connection without error gets one timer of its own: 300000 ms with keep-alive, and without it 2000 ms while events are pending, else 150000 ms |
| `Timers.LingeringHasNoTimer` | WebServer/HttpData.cpp:311-313 | one that is disconnecting and has something to write stays open and is held by no node |
| `Timers.OtherwiseIsClosed` | WebServer/HttpData.cpp:314-317 | every other one is closed once and held by no node |
| `Timers.ResetHasNoTimer` | WebServer/HttpData.cpp:130-144 | after reset the connection is open and held by no node |
| `Timers.AcceptedHasTwoSeconds` | WebServer/HttpData.cpp:613-616 | an accepted connection has a timer of 2000 ms |
| `Timers.OthersAreUntouched` | WebServer/HttpData.cpp:130-318 | what happens to one connection changes no other, nor the nodes that hold it |
| `Timers.TimedConnections.SeparateTimer` | WebServer/HttpData.cpp:146-153 | an existing node lets go of the connection and counts as deleted |
| `Timers.TimedConnections.NewTimer` | WebServer/Timer.cpp:52-56 | a new node for the connection, which then names it |
| `HeaderMachine.Parser.ParseHeaders` | WebServer/HttpData.cpp:397-483 | the byte loop ends with the result, buffer, state and headers of the scan function |
| `HeaderMachine.ParseInvertsPrint` | WebServer/HttpData.cpp:397-483 | in one shot the machine reads printed headers back, later duplicates winning, for names without colon or line break and values of 1 to 256 bytes; of what follows, the first byte is lost |
| `HeaderMachine.RestSurvivesIffEmpty` | WebServer/HttpData.cpp:469-478 | what follows the head survives if and only if nothing follows |
| `HeaderMachine.ReadLine` | WebServer/HttpData.cpp:404-451 | one printed line stores one header |
| `HeaderMachine.NotResumable` | WebServer/HttpData.cpp:398-402 | a call that starts inside a line ends in an error, asks for more bytes or reads outside the buffer, and stores no header, whatever arrives |
| `HeaderMachine.TwoCallsDiffer` | WebServer/HttpData.cpp:397-483 | a head of one field cut behind its name is not read in two calls, though it is in one |
| `HeaderErrors.FlawIsError` | WebServer/HttpData.cpp:404-466 | behind any complete lines, a colon without a blank, a line break in a name, a 257th byte of value, or a carriage return without line feed is an error that leaves the buffer as it was and stores the complete lines only |
| `HeaderErrors.LongestValueIsRead` | WebServer/HttpData.cpp:431-440 | a value of 256 bytes is read |
| `HeaderPieces.PiecesReadAsWhole` | WebServer/HttpData.cpp:397-483 | for every printed head and every cut, two calls leave the same result, buffer, state and headers as one if and only if the first piece is all of it or holds nothing beyond the leading line feed |
| `HeaderPieces.FirstCall` | WebServer/HttpData.cpp:476-482 | the first call on a longer piece asks for more and stops inside a line, between two lines with their line feed still in the buffer, or inside the blank line with two bytes of it |
| `HeaderPieces.BetweenLines` | WebServer/HttpData.cpp:453-460 | a call that starts between two lines succeeds with the line feed as part of the next name, or is refused at the blank line |
| `HeaderPieces.InsideBlankLine` | WebServer/HttpData.cpp:462-474 | a call that starts inside the blank line succeeds on the line feed before it and leaves one behind |
| `PartialWrite.Socket.WriteN` | WebServer/Util.cpp:96-118 | a prefix of the bytes is sent; the result is how many, or -1 on an error |
| `PartialWrite.Socket.WriteString` | WebServer/Util.cpp:120-146 | unless there is an error, bytes sent and bytes left together are the string; on an error the string is left whole |
| `PartialWrite.AllAcceptedIffRoom` | WebServer/Util.cpp:96-118 | without blocking or errors everything is sent exactly when the writes together have room |
| `PartialWrite.WhatEndsIt` | WebServer/Util.cpp:96-118 | a write that would block ends the loop with what has been taken so far, an error ends it with -1, and neither matters once everything is taken |

## Left out

- Weak memory orders: every atomic access is one step of a sequentially consistent memory; `shared_ptr` counting is replaced by values and ownership.
- LogQueueMachine.MachineRefines: assumes that no thread sleeps with a position while 2^63 - N tickets are claimed; a machine counter cannot tell such positions apart.
- LogRing.Ring.Pop: on one slot that has been overwritten the source's loop does not end; that case is excluded here and shown by `SingleSlotSpins`.
- Logger.EveryLineOnce: log calls before `start` returns or while `stop` runs are not modelled, and the sink stays open; level names and timestamps are part of the line.
- HttpConnection.Connection.HandleConnection: how many bytes of a reply are sent when a send accepts nothing or fails is left to the oracle; the server's `running_` flag, checked between awaits, is not modelled, and errors and timeouts of a receive end the stream.
- HttpResponse.ClientReadsResponses: replies to HEAD carry the length of a body that is not sent, so a stream that contains them is not covered.
- The file system behind `resolve_path` and `load_file`, and the media types, are one parameter: a target is refused, missing, or has content and type.
- WebBench.Client.BuildRequest: the proxy port read from the host with `atoi`, and its ten-byte scratch buffer, are not modelled; a host must fit its 64-byte buffer, which the C code does not check.
- EventLoop.NoLostWakeup: which channels become ready is an oracle, and the eventfd counter never reaches its limit.
- RotatingLog.Log.WriteBatch: the class runs one thread's part alone, and the protocol's theorems cover the interleavings; bytes inside a buffer are the list of lines it holds.
- ThreadPool.StepKeepsInv: the pool's own lock and condition calls succeed and all workers are created before `threadpool_create` returns; a call after the lock is destroyed is not modelled.
- SchedulerRounds.WaitingIsServed: a coroutine that is resumed gives control back by finishing; one that awaits gives it back as well and then waits for its completion.
- Scheduler.StepKeepsInv: a full submission queue, exceptions from negative results, and task frames are not modelled; the awaiter that a receive shares with its timeout outlives both completions; a coroutine stands for its whole chain of directly awaited tasks.
- Timers.StepKeepsInv: time never goes back, and events reach only connections that are registered.
- HeaderMachine.Parser.ParseHeaders: reading at a lost position ends the model's call with the result Undefined; what the C++ program then does is not modelled.
- PartialWrite.Socket.WriteN: a socket that interrupts or accepts nothing for ever makes the loop endless; the oracle is a finite list of outcomes.
- Decimal.StoulReads: `std::stoul` is modelled for its value, its sign, its leading blanks and its range; locale is the C locale.
- `HttpData::parseURI` and `analysisRequest`: their tests cannot tell incomplete from malformed input, so there is no law to state.
- Acceptor, server start-up, worker choice, sockets, epoll and io_uring set-up, log files, wrappers of locks and threads: single branches around system calls.
- Allocation of coroutine frames and memory resources: language runtime.
- WebBench's option parsing, forking and measuring, and the test clients.
