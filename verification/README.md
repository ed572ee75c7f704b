# A verified model of libio

libio is a small C++ network library: a worker pool, a reactor and a proactor,
a realigning byte buffer, and an HTTP parser, printer and multi-threaded server
built on them. This project models the parts whose correctness is hard to see
from any one function, and proves what they guarantee for every input, every run
and every interleaving.

## What is modelled, and how

* **Concurrency.** The worker pool (`ThreadPool`), the proactor over the reactor
  (`Proactor`) and the accept-to-worker hand-off (`HandOff`) are state machines.
  One event is one operation of a locked queue, one access to an atomic, one
  acquire or release of a mutex, or one reactor callback. A run is a sequence of
  enabled events, so the theorems quantify over all interleavings. Atomics are
  sequentially consistent. Wake-ups may be spurious.
* **Objects that change in place.** `Buffer`, `Request`, `HttpConnection`,
  `HttpThread`, `Epoll`, `Poll` and `TimeManager` are classes with the fields of
  the source. Every method is proved equal to a function on values, and the
  theorems about runs are about those functions. `Request` runs on real `Buffer`
  objects; `HttpConnection` keeps its two buffers and its queue of requests as
  values and calls the function that `Request.Parse` is proved to compute.
* **Parser and printer.** `Message` says what one call of `parse` does to a
  request object and to the bytes, `RoundTrip` what is printed and that it is
  read back, `Chunked` the chunked encoding, `Continuation` folded headers,
  `Delivery`, `ManyCuts`, `ChunkCut` and `Pipelining` what happens when the bytes of a
  request, of a chunked body or of many requests come in pieces.
* **Around a connection.** `Connection` says what each handler call does, `Reports`
  which calls one report of the kernel brings, hang-ups included, `Recycling` what a
  closed connection leaves in the interest table for the next one with its descriptor.
* **Bytes** are Dafny characters, buffer contents are strings.
* **Outside values** are parameters: results of system calls, whether `realloc`
  and `epoll_ctl` succeed, the clock and the date text, the escaped URI of the
  404 page, the reply a handler makes of a request, the order in which a header
  map is walked (any order, `std::map` has one), and fields that the source
  leaves uninitialised (`type`, `response_code`, `timer::id`).
* **Outcomes the source does not name.** `Throws` is the exception of
  `std::stol` and `std::stoi`; `Undefined` is the read past the end of the string
  that a final `%` causes in percent decoding. Either ends the thread's reactor loop:
  no handler runs after it.

## Where the code does less than one might expect

The model follows the code. Where a broader claim is false there is a lemma that
says exactly when it holds.

* `buffer::pop()` returns an empty string both for an empty line and for a line
  that has not ended, and `parse_headers` takes either for the end of the headers.
  `ManyCuts.ManyCutsExactly`: a request in any number of pieces is read as in one if
  and only if every cut is in the text of the first line, at the end of a header line,
  or in the body.
* The chunk reader stores the CRLF behind each chunk: the stored body is the
  payload if and only if there are no chunks (`Chunked.StoredIsPayloadExactly`).
  It also forgets the chunk size between calls. `ChunkCut.ChunkCutsExactly`:
  whatever the chunks hold, a chunked body in any number of pieces is read as in one if
  and only if every cut is between two chunks or behind the last size line. The hard
  half is a cut in the data, which is then decoded as if it were chunks: that this can
  never end in the right place with the right bytes, however the bytes behind it are
  cut, is `Decoder.NeverSame`, by the words of `Lead`.
* The page that `set_response` puts into a response without content also goes in front
  of the chunks, and an empty chunk is printed as the last one: a chunked response is
  read back with nothing else taken if and only if its code is 200 and no chunk is
  empty (`Chunked.ChunkedExactly`).
* `parse` leaves the printed body of a 1xx, 204 or 304 response unread, and waits
  on an HTTP/1.0 response without body, which carries no length
  (`RoundTrip.ResponseRoundTrip`).
* Closing a connection makes the kernel forget its descriptor, but epoll's own
  table keeps it: the two still agree if and only if no interest was recorded
  (`Interest.CloseBreaksMirror`). A descriptor that is used again reaches the kernel
  under the same condition (`Interest.ReusedReachesExactly`); otherwise it is never
  watched again, whatever is called (`Interest.StaleForever`).
* A close by the write handler leaves such an entry if and only if the connection is
  still watched for reading (`Recycling.CloseLeavesStaleExactly`), and that happens: a
  request that asks to close with part of another one behind it
  (`Recycling.HalfRequestBehindClose`, `Recycling.ClosedWhileWatched`). The next client
  with that descriptor is then never read (`Recycling.NextClientWatchedExactly`).
* A report that brings an end of file is followed by a close if and only if the
  connection is watched for writing or the report says that the peer has hung up, and
  the report's own write does not fail (`Reports.EofClosesExactly`). From there a run
  comes to a stop unclosed if and only if its last report is one whose write failed
  (`Reports.OnlyFailedWritesStrand`).
* `set_timer` drops a timer whose deadline another one already has, although it
  returns an id (`Timers.TimeManager.SetTimer`). `process` drops persistent timers in
  the same way: one stays armed if and only if its new deadline is that of no later
  timer and of no persistent timer that fires before it
  (`Timers.StaysArmedExactly`; two timers of one interval in `Timers.SecondIsLost`).
* `process` ends whatever the intervals, but can fire one timer twice in one call: each
  due timer fires exactly once if and only if none is re-armed among those still to come
  (`Timers.OnceExactly`; a zero interval in `Timers.ZeroFiresTwice`).
* Continuation lines replace one another instead of accumulating: the value kept is
  the folded one if and only if all of them but the last are blank
  (`Continuation.FoldedHeader`, `Continuation.FirstContinuationLost`).
* A line is returned whole if and only if no NUL is in it
  (`Continuation.WholeLineExactly`, `Continuation.NulHidesValue`).

## Model

| member | source | states |
|---|---|---|
| `ThreadPool.GracefulStopDrains` | core/thread.hh:72-142 | in every interleaving, when stop(true) has returned, each task whose push returned before the call was run exactly once, and is neither deleted nor queued |
| `ThreadPool.BeforeIsSnapshot` | core/thread.hh:92-100 | the set that theorem speaks of is exactly the tasks whose push had returned at the call of stop, and never changes afterwards |
| `ThreadPool.AtMostOnce` | core/thread.hh:72-142 | in every run each task is run or deleted at most once, and only pushed tasks run |
| `ThreadPool.WakeupNeverLost` | core/thread.hh:77-80 | before a stop, a non-empty queue has an awake worker or a push that has not notified yet, although the enqueue is outside the mutex |
| `ThreadPool.StopNeverStuck` | core/thread.hh:92-142 | until stop(true) returns, some thread already inside the pool has a step to take: no deadlock, no sleeper that is waited for |
| `PoolProgress.StopReturnsWithin` | core/thread.hh:92-142 | once isDone is set and no further push begins, at most Work(state) steps of any interleaving follow, spurious wake-ups included; where no thread of the pool can take another, stop(true) has returned |
| `PoolProgress.StepUsesWork` | core/thread.hh:77-142 | every step of a worker, a push or the stop uses up some of a finite amount of work |
| `PoolProgress.WorkerRank` | core/thread.hh:117-142 | a step of a worker lowers its rank or takes a task |
| `ThreadPool.HolderCanStep` | core/thread.hh:132-139 | whoever holds the mutex can take its next step |
| `ThreadPool.RunInv` | core/thread.hh:39-142 | all the invariants below hold in every state of every run |
| `ThreadPool.StepInv` | core/thread.hh:39-142 | every event keeps all of them |
| `ThreadPool.StartInv` | core/thread.hh:44-54 | they hold in a new pool |
| `ThreadPool.StepMutex` | core/thread.hh:79-139 | the mutex has at most one holder among workers, pushes and stop, and the owner names it |
| `ThreadPool.StepPlaces` | core/thread.hh:39-142 | only a push adds an occurrence of a task to queue, hands, run and deleted tasks together; nothing removes one |
| `ThreadPool.StepConserved` | core/thread.hh:39-142 | each pushed task stays in exactly one of these places |
| `ThreadPool.StepEmptySeen` | core/thread.hh:132-137 | while a worker that found the queue empty holds the mutex, every queued task belongs to a push that still has to take it |
| `ThreadPool.StepStop` | core/thread.hh:92-139 | workers exit only once isDone is set, joined workers are finished, and nothing is deleted before all are |
| `ThreadPool.StepDrained` | core/thread.hh:99-139 | once a worker decides to exit, no task pushed before the stop is queued, and none is ever deleted |
| `ThreadPool.StepNoLostWakeup` | core/thread.hh:77-139 | each step keeps an awake worker or a pending notification for a non-empty queue |
| `ThreadPool.StepNoSleeper` | core/thread.hh:103-139 | after stop's notify_all nobody sleeps or is about to |
| `Proactor.ExactlyOnce` | model/proactor.hh:51-138 | in every interleaving a submitted callback is in exactly one of its descriptor queue, op_queue, one thread's hands, or done |
| `Proactor.SubmissionOrder` | model/proactor.hh:51-124 | per descriptor and direction callbacks enter op_queue in submission order, and leave it in the order they entered |
| `Proactor.WaitingIsInstalled` | model/reactor.hh:56-143 | a non-empty descriptor queue always has its reactor callback and its interest, despite deferred erasure; no dispatch meets a missing channel; nothing awaits erasure while the mutex is free |
| `Proactor.RunInv` | model/proactor.hh:51-138 | the table and callback invariants hold in every state of every run |
| `Proactor.HandlerKeeps` | model/proactor.hh:62-76 | a handler keeps queues, channels and interest consistent and erases no channel |
| `Proactor.DispatchKeeps` | model/reactor.hh:130-135 | so does dispatching one side of an active descriptor |
| `Proactor.StoreKeeps` | model/proactor.hh:80-110 | so does a submission |
| `Proactor.CleanStep` | model/reactor.hh:137-139 | erasing what needclean lists removes no channel that a queue needs |
| `Proactor.SideStep` | model/reactor.hh:130-135 | descriptors still to be dispatched keep their channels while earlier ones are dispatched |
| `Proactor.StepReactor` | model/reactor.hh:56-143 | every event keeps the mutex, table and clean-up invariants |
| `Proactor.HandlerQueues` | model/proactor.hh:89-109 | a handler moves the front of its own queue to op_queue and leaves all other queues alone |
| `Proactor.HandlerCallbacks` | model/proactor.hh:62-76 | a handler keeps submission order and conservation |
| `Proactor.StoreCallbacks` | model/proactor.hh:80-87 | a submission puts its callback at the back of its own queue only |
| `Proactor.StepCallbacks` | model/proactor.hh:51-138 | every event keeps order, conservation and distinctness of callbacks |
| `HandOff.RoundRobin` | http/http_multithread_server.cc:26-38 | in every run what a thread has taken followed by its queue is every size-th accepted client from its own index on, in order |
| `HandOff.Balanced` | http/http_multithread_server.cc:26-38 | the numbers of clients given to any two threads differ by at most one |
| `HandOff.NoStrandedClient` | http/http_thread.cc:22-34 | a waiting client implies a readable eventfd, an acceptor between push and wake-up, or a draining thread, also when the eventfd write fails near its maximum; an idle thread can then enter its handler |
| `HandOff.StepSignalled` | http/http_thread.hh:47 | every event keeps the signal of each waiting client |
| `HandOff.StepRouted` | http/http_multithread_server.cc:32-37 | every event keeps each client on its thread, once and in order |
| `HandOff.ShareSize` | http/http_multithread_server.cc:37 | how many of k clients fall to thread i: k / n, and one more if i < k mod n |
| `HandOff.RunInv` | http/http_multithread_server.cc:6-38 | both invariants hold in every state of every run |
| `Connection.PipelineRoundTrip` | http/http_connection.cc:83-99 | any list of printed requests followed by any bytes is completed request by request, in order, with the method, target, headers and body that were sent, and the bytes behind are treated as if they had come alone |
| `Pipelining.PiecePushes` | http/http_connection.cc:77-120 | one delivery to a connection that stands anywhere in a pipeline, with bytes buffered or a request started, pushes exactly the replies to the requests it completes, behind what was pushed before |
| `Pipelining.PipelineInPieces` | http/http_connection.cc:31-120 | pipelined requests over any number of deliveries, each cut where a single request may be cut, in any run of handler calls with writes and errors in between, from any place in the first request on: after each call, exactly the requests that are all there have been completed, as sent and in order, their replies were pushed, and, unless closed, queue and buffer are where one request alone would leave them |
| `Pipelining.ServePiece` | http/http_connection.cc:83-119 | one delivery from any such point to a later one completes the requests in between |
| `Connection.GracefulClose` | http/http_connection.cc:31-178 | over every run of handler calls with partial writes and errors: what was pushed is the replies owed for the requests completed, in their order; bytes sent plus bytes waiting are the bytes pushed; life moves only CONNECTED, CLOSING, CLOSED; a connection closed by a handler has sent everything |
| `Connection.LogIsReplies` | http/http_connection.cc:85-109 | unless bytes come that are no request, the replies owed are exactly the replies to the requests completed over the whole run, in request order |
| `Connection.HandlePushes` | http/http_connection.cc:93-109 | one handler call pushes exactly the replies to the requests it completes, and the bad-request reply when it meets a corrupted one |
| `Reports.EofClosesExactly` | http/http_connection.cc:40-69 | after a report with an end of file, dispatched to both sides if the peer has hung up, the connection is closed by a handler then or in some run if and only if it is watched for writing or the report is a hang-up, and the report's write does not fail; otherwise nothing can be called |
| `Reports.OnlyFailedWritesStrand` | http/http_connection.cc:49-66 | from there, over any reports, a run has come to a stop unclosed if and only if its last report is one whose write failed |
| `Reports.WindingStep` | model/reactor.hh:130-135 | one report on the way there: it closes, goes on, or its write fails and nothing can be called any more |
| `Reports.DispatchedKeeps` | core/epoll.hh:110-128 | dispatching a report to one side or to both loses no byte and moves life only forward |
| `Recycling.CloseLeavesStaleExactly` | http/http_connection.cc:49-54 | a write handler call that closes leaves a stale entry in epoll's table if and only if the connection was still watched for reading |
| `Recycling.NextClientWatchedExactly` | http/http_thread.cc:28-60 | the next client with that descriptor is watched for reading if and only if the closed connection was not |
| `Recycling.HalfRequestBehindClose` | http/http_connection.cc:83-120 | a request that asks to close, with any front part of another request's first line behind it, leaves the connection closing, watched for reading and without a read handler |
| `Recycling.ClosedWhileWatched` | http/http_connection.cc:31-69 | that input is the beginning of a run to such a close: its replies written, the connection is closing with nothing to write and watched for reading |
| `Connection.ServeLeavesSuffix` | http/http_connection.cc:83-119 | the request loop leaves a suffix of its input and at most one started request |
| `Connection.AnswerAllKeeps` | http/http_connection.cc:95-118 | handling requests pushes their replies in request order and closes the read side exactly when one of them asks to |
| `Connection.ParseRequestKeeps` | http/http_connection.cc:77-120 | a parse_request call loses no byte, does not close, and moves life only forward |
| `Connection.HandleKeeps` | http/http_connection.cc:32-70 | so does every handler call, except that the write handler may close once all is sent |
| `Connection.HandleWatched` | http/http_connection.cc:32-70 | in every life, a handler call leaves bytes waiting unwatched if and only if its write failed |
| `Connection.WatchedAlways` | http/http_connection.cc:31-120 | over every run without a failed write, bytes wait only while the socket is watched for writing |
| `Connection.HttpConnection.constructor` | http/http_connection.cc:9-23 | a new connection |
| `Connection.HttpConnection.Reopen` | http/http_thread.cc:53-58 | a pooled connection, given a descriptor, has the same state as a new one |
| `Connection.HttpConnection.RunParseRequest` | http/http_connection.cc:77-120 | the loop terminates on every input, by the pair of bytes left and front request started, and computes the specification |
| `Connection.HttpConnection.HandleRequest` | http/http_connection.cc:180-225 | pushes the reply, and stops reading on `Connection: close` |
| `Connection.HttpConnection.SendBadRequest` | http/http_connection.cc:103-109 | a corrupted request is answered and the connection starts closing |
| `Connection.HttpConnection.OnReadable` | http/http_connection.cc:32-46 | the read handler is the specified step for bytes, end of file and errors |
| `Connection.HttpConnection.OnWritable` | http/http_connection.cc:49-69 | the write handler is the specified step for every result of the write |
| `Connection.HttpConnection.Shut` | http/http_connection.cc:164-178 | close() empties an open connection and does nothing to a closed one |
| `Connection.ChunkedAnswer` | http/http_connection.cc:142-162 | a start, any chunks and an end push the printed head, the chunks and the last chunk, one behind the other |
| `Connection.ChunkedAnswerReads` | http/http_connection.cc:142-162 | what a start with any code, any chunks and an end push, followed by any bytes, is read by a client as one complete response leaving exactly these bytes if and only if the code is 200 and no chunk is empty; its code, reason and headers are then those sent and each chunk with its CRLF is its body |
| `Connection.PrintStart` | http/http_connection.cc:142-148 | a response object of any code filled by set_response and set_header and printed into a buffer gives the bytes of the specified response |
| `Connection.HttpConnection.SendChunk` | http/http_connection.cc:150-157 | pushes size line, data and CRLF as one chunk of the encoding |
| `ConnectionPool.HttpThread.constructor` | http/http_thread.cc:13-20 | no connections |
| `ConnectionPool.HttpThread.MakeConnection` | http/http_thread.cc:45-60 | a recycled connection has the same state as a newly constructed one |
| `ConnectionPool.HttpThread.TakeClient` | http/http_thread.cc:28-33 | the client's connection is live under its own descriptor; every object ever made is still live under its own key or pooled, closed and empty |
| `ConnectionPool.HttpThread.TakeClients` | http/http_thread.cc:22-34 | the loop makes exactly one live connection per queued client |
| `ConnectionPool.HttpThread.ReleaseConnection` | http/http_thread.cc:37-43 | moves a connection from the table to the back of the pool, or does nothing |
| `ConnectionPool.HttpThread.CloseConnection` | http/http_connection.cc:164-178 | the closed connection is pooled empty, every other one stays where and as it is |
| `ConnectionPool.HttpThread.Readable` | http/http_connection.cc:32-46 | a read handler keeps the table and pool invariant |
| `ConnectionPool.HttpThread.Writable` | http/http_connection.cc:49-69 | so does a write handler, which pools the connection exactly when it is closing with nothing left to write |
| `ConnectionPool.HandleStaysLive` | http/http_connection.cc:31-71 | no other handler call closes a connection |
| `RoundTrip.RequestRoundTrip` | http/request.cc:22-170 | a printed request followed by any bytes is read as ALLREAD with the same method, target, version, headers and body, and leaves these bytes |
| `RoundTrip.SetRequestSendable` | http/request.cc:252-279 | every request built by set_request (GET and HEAD without content, POST with any) satisfies what that round trip needs |
| `RoundTrip.SetHeaderSendable` | http/request.hh:65-67 | so does one with further clean headers |
| `RoundTrip.ResponseRoundTrip` | http/request.cc:173-290 | every HTTP/1.0 or 1.1 response of set_response is read back with its code, reason and headers; its body too and nothing else, except for bodyless codes and for an empty HTTP/1.0 body, where the exact result is given |
| `RoundTrip.HeadRoundTrip` | http/request.cc:22-90 | printed first line and headers are read back whatever follows |
| `RoundTrip.RequestLineReads` | http/request.cc:134-170 | a printed request line gives its method, decoded path, query and version |
| `RoundTrip.ResponseLineReads` | http/request.cc:173-193 | a printed status line gives its version, code and reason |
| `RoundTrip.ResponseFraming` | http/request.cc:235-249 | which responses carry a Content-Length, and that it is the body's length |
| `RoundTrip.LengthBody` | http/request.cc:119-124 | a body with its own length as Content-Length is taken exactly |
| `RoundTrip.NoLengthBody` | http/request.cc:119-120 | without a length everything is taken and more awaited |
| `RoundTrip.HeaderLoopOver` | http/request.cc:43-90 | the header loop absorbs any number of printed headers in order |
| `RoundTrip.HeaderLineSplits` | http/request.cc:81-86 | a printed header line is split and trimmed back to its name and value |
| `RoundTrip.HeaderLoopHalfEnded` | http/request.cc:43-90 | a header line of which only the CR has come is read as complete |
| `RoundTrip.AbsorbIsSame` | http/request.cc:284-286 | the headers read are the headers sent, whatever the order of printing; empty ones read as absent |
| `ManyCuts.ManyCutsExactly` | http/request.cc:6-127 | for every request, any following bytes and any list of pieces: they end in the state and leftover of one delivery, with every piece used, if and only if each cut is in the first line's text, at a header line boundary or in the body |
| `ManyCuts.DeliveryIndependence` | http/request.cc:6-127 | with such cuts every call but the last asks for more, and the last has the method, target, headers and body that were sent and leaves what follows |
| `ManyCuts.SingleCutExactly` | http/request.cc:43-48 | the same for one cut at any position |
| `Delivery.Stops` | http/request.cc:22-127 | at each safe cut the parser waits, in a state given by the cut alone |
| `Delivery.Resumes` | http/request.cc:6-127 | going on from a safe cut to a later point gives what one delivery up to that point gives |
| `ManyCuts.SafePiece` | core/buffer.hh:103-126 | a piece from one safe cut to a later one is used up, and the others go on from there |
| `ManyCuts.UnsafeFeeds` | core/buffer.hh:103-126 | a piece that ends at any other place spoils the result however the bytes behind it are cut: complete too early, never complete, or more bytes left than follow |
| `ManyCuts.CompletesEarly` | http/request.cc:6-127 | a piece that ends behind the request completes it before the pieces are used up |
| `Delivery.CutInsideHeader` | http/request.cc:46-51 | an unfinished header line is taken for the empty line: the headers end there, with that line left as body or unread |
| `Delivery.CutInsideEmptyLine` | http/request.cc:46-51 | cutting the empty line in two ends the headers before its LF has come |
| `Delivery.CutInsideFirstEnd` | http/request.cc:22-47 | when the first line's CRLF is cut in two the parser waits, in the state behind that line |
| `Delivery.CutInsideHeaderEnd` | http/request.cc:43-90 | the same when a header's CRLF is cut in two |
| `Delivery.CutInsideLineEnd` | http/request.cc:45-51 | the LF that then comes first is taken for the empty line, together with a CR behind it |
| `Delivery.EndedCall` | http/request.cc:49-127 | headers taken for ended behind any of their lines: the call waits, or completes and leaves all bytes but as many as the true body has |
| `ManyCuts.BodyFeeds` | http/request.cc:92-127 | the same over any number of further calls |
| `ManyCuts.LateFeeds` | http/request.cc:43-51 | an LF left over from a line end that was cut ends the headers, in whichever later piece it comes |
| `Delivery.Locate` | http/request.cc:281-287 | every position in the printed headers is in a line's text, at its end or inside its CRLF |
| `Chunked.ChunkedExactly` | http/http_connection.cc:142-162 | a chunked response of any code with any chunks is read back, leaving exactly what follows, if and only if the code is 200 and no chunk is empty; body, code, reason and headers are then those sent |
| `Chunked.ChunksExactly` | http/request.cc:99-118 | chunks, empty ones among them, complete the body, and leave exactly what follows if and only if none is empty |
| `Chunked.ChunkedRoundTrip` | http/http_connection.cc:142-162 | a chunked response cut anywhere between its chunks: the parser waits until the last piece, then is complete, consumes exactly its bytes, and has each chunk and the CRLF behind it as body, with code, reason and headers |
| `Chunked.StoredIsPayloadExactly` | http/request.cc:114 | the stored body is two bytes per chunk longer than the payload, hence equal to it if and only if there are no chunks |
| `ChunkCut.ChunkCutsExactly` | http/request.cc:92-131 | for any chunks, any following bytes and any list of pieces: a chunked body gives the result of one delivery, with every piece used, if and only if each cut is between two chunks or behind the last size line |
| `ChunkCut.ChunkCutExactly` | http/request.cc:92-131 | the same for one cut at any position |
| `Decoder.NeverSame` | http/request.cc:99-117 | a decoder that takes chunk data for size lines, and may forget a size at any point, never ends where the right one does with the same bytes stored |
| `ChunkCut.LoopDecodes` | http/request.cc:99-117 | what a call of the chunk loop stores, and what is decoded behind it, is decoded in one go by the byte-wise decoder that may forget sizes |
| `ChunkCut.FeedDecodes` | http/request.cc:92-131 | so is what any number of calls store that complete a message |
| `ChunkCut.AstrayFeeds` | http/request.cc:92-117 | once chunk data is taken for a size line, no cutting of the bytes behind it brings the right result |
| `ChunkCut.LineEndFeeds` | http/request.cc:102-105 | calls in the body whose bytes begin with a line end never complete it |
| `ChunkCut.CutInChunk` | http/request.cc:99-117 | a first piece that ends inside a chunk, in its size line, its data or its CRLF, spoils the result whatever the other pieces |
| `ChunkCut.CutInLast` | http/request.cc:107-131 | so does one that ends inside the last chunk, except behind its size line |
| `ChunkCut.LineEndThrows` | http/request.cc:102-105 | a call in the body that begins with a line end throws |
| `Chunked.CutInsideChunk` | http/request.cc:92-117 | after a cut in a chunk's data the parser keeps the bytes, and the next call reads them as if no size had been read |
| `Chunked.ChunksRead` | http/request.cc:99-117 | the loop stores any number of printed chunks |
| `Chunked.LastRead` | http/request.cc:107-110 | the last chunk and the empty trailer complete the message |
| `Chunked.StartReads` | http/http_connection.cc:142-148 | the printed start puts the parser between chunks |
| `Chunked.GroupsRead` | http/request.cc:92-131 | chunks in any grouping of calls are stored the same |
| `Message.ParseLeavesSuffix` | http/request.cc:6-131 | on any object and any bytes, parse leaves a suffix of its input; a new object completes only by consuming a byte |
| `Message.HeaderLoopSuffix` | http/request.cc:43-90 | so does the header loop |
| `Message.ChunkLoopSuffix` | http/request.cc:99-118 | so does the chunk loop |
| `Message.PopWholeLine` | core/buffer.hh:103-126 | a line and its CRLF are taken off, whatever follows |
| `Message.PopHalfEnded` | core/buffer.hh:107-125 | a line with only its CR is taken off as well |
| `Message.NoEol` | core/buffer.hh:107-111 | text without a line end stays, and an empty string is returned |
| `Message.FirstEol` | core/buffer.hh:107-109 | the first CR or LF, or the length |
| `Message.PopLine` | core/buffer.hh:103-126 | never grows the buffer, and a non-empty line shortens it |
| `Message.Words` | http/request.cc:135-142 | three words or none |
| `Continuation.FoldedHeader` | http/request.cc:74-86 | a header followed by any continuation lines stores its value and the last of them trimmed, which is the folded value if and only if all earlier ones are blank |
| `Continuation.ContinuationsRead` | http/request.cc:74-79 | any number of continuation lines: only the last one counts |
| `Continuation.FirstContinuationLost` | http/request.cc:77 | the input at which folding fails |
| `Continuation.ContinuationRead` | http/request.cc:75-79 | one continuation line, or a bad one when no header is in front of it |
| `Continuation.WholeLineExactly` | core/buffer.hh:121-124 | the line returned is the text in front of the line end if and only if no NUL is in that text; the bytes behind it are taken off in any case |
| `Continuation.NulHidesValue` | core/buffer.hh:123 | the input at which a value is cut |
| `Message.SizeOf` | http/request.cc:104-107 | a data chunk has a positive size from a non-empty line |
| `Text.PrintedNumberRoundTrip` | http/request.cc:104-202 | std::stol reads back every number in range printed in base 10 or 16 |
| `Text.TrimUndoesSpace` | core/string.hh:38-52 | trimming a trimmed text behind one space gives the text |
| `Percent.StringFromUtf8` | core/string.hh:82-104 | the loop with its flag and batch equals the one-character-at-a-time decoder on every input |
| `Percent.DecodeInvertsEncode` | core/string.hh:73-104 | decoding inverts every encoding that writes each byte literally (if not a percent sign) or as percent and two hex digits of either case, section 2.1 of RFC 3986 |
| `Percent.DecodeLiteral` | core/string.hh:87-100 | text without a percent sign is its own decoding |
| `Percent.UndefinedExactly` | core/string.hh:89-91 | the decoder reads past its input if and only if, after the escapes before it, a percent sign comes last |
| `Buffer.BufferIsFifo` | core/buffer.hh:40-126 | over any run of operations, failed reads, writes and reallocations included, the content behind all bytes taken out is all bytes put in, and offsets stay within the allocation |
| `Buffer.WorldProjects` | core/buffer.hh:40-126 | among any number of buffers that also push to one another, each makes such a run of its own, so the run theorems hold of it |
| `Buffer.MoveConserves` | core/buffer.hh:74-84 | in any such run, push(buffer*, n) leaves target content followed by source content unchanged and touches no other buffer, also when there is no memory |
| `Buffer.StepIsFifo` | core/buffer.hh:40-126 | one operation takes a prefix, appends what it is given, and stays in bounds |
| `Buffer.TransferConserves` | core/buffer.hh:74-84 | push(buffer*, n) leaves target content followed by source content unchanged |
| `Buffer.CapacityBound` | core/buffer.hh:149-193 | if content plus incoming bytes never exceed M, the allocation never exceeds max(256, 4M), however much passes through |
| `Buffer.CapacityShape` | core/buffer.hh:149-174 | the allocation is always 128 or 256 times a power of two |
| `Buffer.DoublingFitsInt` | core/buffer.hh:158-161 | from any reachable size the doubling loop stays in int range if and only if the need is at most 2^30 |
| `Buffer.Doubled` | core/buffer.hh:161 | the doubled length covers the need |
| `Buffer.Buffer.constructor` | core/buffer.hh:24-28 | an empty buffer of the default size |
| `Buffer.Buffer.Clear` | core/buffer.hh:35-38 | empties the buffer and keeps its allocation |
| `Buffer.Buffer.Align` | core/buffer.hh:176-180 | moves the content to the front unchanged |
| `Buffer.Buffer.Expand` | core/buffer.hh:149-174 | makes room, keeping the content, also when realloc fails |
| `Buffer.Buffer.Drain` | core/buffer.hh:182-193 | drops a prefix and nothing else |
| `Buffer.Buffer.Push` | core/buffer.hh:63-72 | appends the data, or fails exactly when a larger allocation is needed and not to be had; the layout either way |
| `Buffer.Buffer.PushFrom` | core/buffer.hh:74-84 | moves a prefix of one buffer to the end of another, or fails and leaves the source as it is; both layouts either way |
| `Buffer.Buffer.Pop` | core/buffer.hh:90-98 | returns and removes the prefix asked for, as far as there is one |
| `Buffer.Buffer.FindLineEnd` | core/buffer.hh:107-109 | finds the first CR or LF |
| `Buffer.Buffer.CStringAt` | core/buffer.hh:123 | the text up to the first NUL |
| `Buffer.Buffer.PopLine` | core/buffer.hh:103-126 | the line, the remaining content and the layout are the specified ones |
| `Buffer.Buffer.Read` | core/buffer.hh:40-53 | layout and result on every path: arrival, end of file, error and failed reallocation |
| `Buffer.Buffer.Write` | core/buffer.hh:55-61 | what was sent followed by what is left is what was there |
| `Request.Request.constructor` | http/request.hh:35-58 | a new request object |
| `Request.Request.Parse` | http/request.cc:6-20 | on any object and any input buffer: verdict, new object and bytes left are those of the specification; no other object changes |
| `Request.Request.ParseFirstLine` | http/request.cc:22-41 | the same for the first line |
| `Request.Request.ParseRequestLine` | http/request.cc:134-170 | the same for a request line |
| `Request.Request.ParseResponseLine` | http/request.cc:173-193 | the same for a status line |
| `Request.Request.ParseHeaders` | http/request.cc:43-90 | the same for the headers and what follows them |
| `Request.Request.LineLoop` | http/request.cc:45-89 | the loop over header lines computes the recursive specification |
| `Request.Request.TakeHeader` | http/request.cc:74-86 | one header line, continuation line or bad line |
| `Request.Request.ParseBody` | http/request.cc:92-127 | the same for the body |
| `Request.Request.ReadChunks` | http/request.cc:99-118 | the chunk loop computes the recursive specification |
| `Request.Request.ReadLength` | http/request.cc:195-206 | the body length, with the header entries that reading it creates |
| `Request.Request.ParseTrailer` | http/request.cc:129-131 | the same for the trailer |
| `Request.Request.SetRequest` | http/request.cc:252-279 | takes the content buffer and becomes the specified request |
| `Request.Request.SetResponse` | http/request.cc:208-250 | takes the content buffer and becomes the specified response |
| `Request.Request.SetResponsePage` | http/request.cc:208-309 | without content: the default page for the code, then the specified response |
| `Request.Request.SendHeaders` | http/request.cc:284-285 | prints each non-empty header once, in some order of the map |
| `Request.Request.SendTo` | http/request.cc:281-290 | appends the printed message to the buffer and gives up the body |
| `Interest.MirrorAlways` | core/epoll.hh:55-108 | over every run of add and remove with any epoll_ctl failures, epoll's table equals the kernel's interest for every descriptor |
| `Interest.StepMirror` | core/epoll.hh:55-108 | one call keeps that, adds or removes exactly the bits asked for when the kernel agrees, and touches no other descriptor |
| `Interest.CloseBreaksMirror` | http/http_connection.cc:164-170 | closing a descriptor keeps it if and only if no interest was recorded |
| `Interest.ReusedReachesExactly` | core/epoll.hh:57-74 | the first interest in a descriptor used again after a close reaches the kernel if and only if none was recorded at the close |
| `Interest.StaleForever` | core/epoll.hh:55-108 | where one was recorded, no calls of add and remove make the kernel watch that descriptor again |
| `Interest.EpollIsPoll` | core/poll.hh:50-78 | over every failure-free run that removes only registered descriptors, epoll and poll hold the same interest, and poll never throws |
| `Interest.StepAgree` | core/poll.hh:50-78 | one proper call keeps the two tables equal |
| `Interest.Epoll.Add` | core/epoll.hh:55-76 | the new table and the exact condition of each result |
| `Interest.Epoll.Remove` | core/epoll.hh:78-108 | the new table and the exact condition of each result |
| `Interest.Poll.Add` | core/poll.hh:50-64 | the new table |
| `Interest.Poll.Remove` | core/poll.hh:66-78 | the new table, or the exception for an unknown descriptor |
| `Timers.TimeManager.constructor` | core/time.hh:26-33 | no timers |
| `Timers.TimeManager.GetId` | core/time.hh:134-138 | never returns an id in use, and stays within [0, maxid], whatever the timers' id fields hold |
| `Timers.TimeManager.SetTimer` | core/time.hh:80-100 | the id is new; the timer is armed if and only if no other has its deadline; all others stay |
| `Timers.TimeManager.Process` | core/time.hh:110-131 | terminates for every interval; fires exactly the timers due at now, in deadline order; each once if and only if none is re-armed among those still to come; with positive intervals it leaves only later deadlines, and keeps a persistent timer armed if and only if its new deadline is free |
| `Timers.TimeManager.FireDue` | core/time.hh:115-130 | the loop terminates for every interval and computes the pass |
| `Timers.TimeManager.Fire` | core/time.hh:116-130 | one turn of the loop is the specified one: erase at the iterator, then insert, with the iterator staying on its timer |
| `Timers.TurnKeeps` | core/time.hh:116-130 | a turn keeps the set sorted and leaves less to do: fewer timers not re-armed where they stand, or fewer ahead |
| `Timers.PassFires` | core/time.hh:115-130 | a pass over the whole set fires what a pass over the due timers alone fires |
| `Timers.FiredInOrder` | core/time.hh:115-130 | what fires is due, in strictly increasing order of deadlines |
| `Timers.FiredMembers` | core/time.hh:115-130 | every due timer fires, and whatever fires is one of them |
| `Timers.OnceExactly` | core/time.hh:126-129 | each due timer fires exactly once if and only if no persistent one is re-armed behind another due timer at a deadline not later than now that no timer has |
| `Timers.ZeroFiresTwice` | core/time.hh:126-129 | a persistent timer with a zero interval in front of another due timer fires twice in one call |
| `Timers.PassRenews` | core/time.hh:115-130 | with positive intervals the pass fires the due timers once each, leaves only later deadlines, and keeps a persistent timer armed if and only if its new deadline is free |
| `Timers.StaysArmedExactly` | core/time.hh:126-129 | a fired persistent timer stays armed if and only if its new deadline is that of no later timer and of no persistent timer that fires before it |
| `Timers.SecondIsLost` | core/time.hh:126-129 | two persistent timers of one interval that fire in one call: the second is lost, and its id stays in the map |
| `Timers.RearmedMembers` | core/time.hh:115-130 | the set after the loop, timer by timer |
| `Timers.FiredNext` | core/time.hh:116-130 | one turn of the loop fires the next due timer and puts a persistent one behind all that is due |
| `Timers.FiredExactly` | core/time.hh:116-119 | the due timers are exactly the front of the set |
| `Timers.RearmedLater` | core/time.hh:126-129 | with positive intervals the re-armed timers and the rest are later than now |
| `Timers.PositiveExactly` | core/time.hh:127 | for normalised times, a re-armed deadline is later than now if and only if the interval is not zero |
| `Timers.InsertSorted` | core/time.hh:26-29 | insertion keeps the deadlines strictly increasing |
| `Timers.InsertMembers` | core/time.hh:97 | insertion adds the timer if and only if its deadline is free, and loses none |

## Left out

- Liveness of the proactor and of connections, and of the pool before a stop: it depends on the scheduler and on blocking kernel waits. `PoolProgress.StopReturnsWithin` bounds the steps of a stop, `HandOff.NoStrandedClient` is the safety side of the hand-off.
- `thread_pool`: `stop(false)` with its flags, shrinking `resize`, a `resize` that overlaps a stop, the race in a growing `resize` between moving the vector of flags (core/thread.hh:49) and a worker that reads its flag there (core/thread.hh:125; `Grow` is one event), public `pop()` and the counter `nWaiting`. One call of `stop(true)` is modelled; a second one made later returns at its first test.
- `proactor::run`: the tests of `inloop`, `ops` and `stopped` are over-approximated, any branch may be taken at any time; multiplexer calls are taken to succeed.
- Sockets, eventfd creation, epoll_wait, poll and select calls, fork and signals; `core/select.hh`; failed listens and the tables of a listen result.
- Timers inside the reactor loop; `time::remove`, `set_persistent` and `shortest_time`.
- Timers.TimeManager.SetTimer: the address of a new timer must be that of no timer in the set, as `new` guarantees.
- Timers.TimeManager.Process: assumes callbacks that leave the timer manager alone.
- Routing of URIs in `handle_request`: the reply is an arbitrary function of the request, made before the handler returns. Handlers that answer later are not modelled.
- Connection.GracefulClose: the interest of a connection is taken to change as asked; `Interest.CloseBreaksMirror` is where the real table differs.
- ConnectionPool.HttpThread.TakeClient: a new client's descriptor must not be that of a live connection, as the kernel guarantees.
- `int` overflow: sizes are unbounded integers, `Buffer.DoublingFitsInt` gives the exact range in which that is faithful; bodies up to the range of `long` are covered.
- Request.Request.Parse: `realloc` is taken to succeed while parsing; the buffer's own methods model its failure.
- Request.Request.SetRequest: a null content is an empty buffer; pushing a buffer into itself is not modelled.
- C++ object lifetime: allocator pairing in `buffer`, callbacks replaced while they run, connections destroyed by their own handler.
- ChunkCut.ChunkCutsExactly: cuts of the body. Cuts in the head of a response are not classified.
- Reports.OnlyFailedWritesStrand: after an end of file no more bytes come, as TCP guarantees.
- `buffer::find`, `htmlescape`, `replace`, `split`, `equal_lower`, `is_palindrome`, `get_date`, files, samples, tests and benchmarks: side utilities that nothing above depends on.
