# Message framing, dispatch and ordered replies of the Asio servers

A machine-checked model of the part of this repository that turns an arbitrarily cut byte stream into
messages, hands them to one worker, and puts the replies on the wire in order. It covers LogicServer
(IOContextPoolServer has the same code, and IOThreadPoolServer differs only by binding a session's
handlers to a strand), JsonServer, AsyncEchoServer2, and the partial-write queue of AsyncServer.

`dafny verify dfyconfig.toml` checks everything.

## How it is built

Three layers, each proved against the one above it in this list.

1. **Meaning.** `Codec` says what a stream means (`Parse`) and how a frame is written (`Encode`), for
   the 4-byte header of the logic servers (`Tlv`) and the 2-byte header of the others (`Lv`).
   `LogicQueues` says what pushing, handling and draining do to the logic queue.
2. **Code.** Classes with the source's fields, buffers and loops: `MsgNode`, `CServer`, `CSession`
   with `HandleRead`, `SendSide` with `Send` and `HandleWrite`, `LogicSystem`, JsonServer's
   `ExactSession`, AsyncServer's `Session`. Each method is proved to do what a function of the old
   state says.
3. **Runs.** State machines whose steps are those functions, interleaved in any order: the send
   pipeline (`SendQueues`), the partial-write queue (`PartialWrites`), the servers that answer in
   the read handler (`Echoes`, `InlineServers`), and the whole logic server (`Servers`): any number
   of sessions, each with a read and a write handler, one worker that the first message creates, two
   kinds of lock, the condition variable, the stop flag, and an owner count per session that every
   step moves as the `shared_ptr` copies in the code do. `WorkerTurns` shows that the worker's
   interleaved steps add up to the critical sections of the class, `ServerSessions` what becomes of a
   session in terms of the events of a run.

The main results:

- What a session writes is always a prefix of the encoded replies to its registered messages in arrival
  order (`EndToEnd`). Left to itself the server comes to rest within a bounded number of steps under
  every schedule, and then everything has been answered (`EveryMessageIsAnswered`, and
  `EveryArrivalIsAnswered`, `EveryReadIsAnswered` for the servers that answer in the read handler).
- A session goes on reading exactly until a read of it fails or a header is refused, and stays in the map
  exactly until one of these happens or a write fails (`ReadingGoesOn`, `MappedExactlySoLong`,
  `AtRestItReadsOn`; `ReadsOn`, `InlineReadsOn`). From any state a new client can be served any stream in
  any chunks (`EveryStreamCanBeServed`; `EveryStreamCanBeEchoed`, `EveryStreamCanBeRead`).
- Frames do not depend on chunk boundaries (`ChunkingIndependence`, `HandleRead`). Encoding and parsing
  are inverse in both directions (`RoundTrip`, `ParseThenEncode`). JsonServer's two readers agree and its
  echo is verbatim (`TheTwoReadersAgree`, `VerbatimEcho`).
- Partial writes stay in order and finish (`PartialWritesStayInOrder`, `TheQueueEmpties`).
- Posting loses no wake-up (`NoLostWakeUp`, `EveryFirstPushIsNotified`); there is no lock cycle
  (`NoWaitingCycle`) and no use of a destroyed session (`SessionLifetime`).

One promise does not hold. LogicServer/README.md announces a graceful exit, but `~LogicSystem` sets
and notifies `_b_stop` without the mutex (LogicServer/LogicSystem.cpp:66-70). Once notified, the worker
ends if and only if the notification did not come in the gap between its test and its wait: under
every schedule (`EveryScheduleEndsTheWorker`), and no schedule does any better
(`SomeScheduleEndsTheWorker`). Messages are not at stake: at rest everything received has been popped,
every registered message called back once and every reply handed to Send, whether the worker has ended
or sleeps for good (`StopIsLostExactlyInTheGap`, `AnEndedWorkerLeavesNothing`); what fails is the join.
`StopNotificationCanBeLost` is such a run from the start of the server, and `StopCanBeLost` continues
every run with a message on its way like that.

## What is assumed

- `_b_head_parse`, `_send_pending` and `_b_close` start false; the constructors do not set them.
- A successful read delivers at most MAX_LENGTH bytes. A completion of zero bytes is modelled in the
  class as the code treats it (neither a new read nor a cleared session); in the runs every read
  delivers at least one byte.
- No decoded length is negative. The code compares lengths with the upper bound only, and what
  follows for a negative one is undefined in C++. `Parse` names this case (`NegativeLength`); reads
  that would lead to it are excluded by precondition.
- async_send completes without error only when its whole buffer is written, as AsyncServer/README.md
  says. Where a callback depends on that, `WriteAllNeedsTheWholeBuffer` proves the dependence.
- Replies are an arbitrary function of the message; a reply body has at most 32767 bytes.
- `~LogicSystem` runs when the static `_instance` is destroyed (LogicServer/Singleton.h:15-36), behind
  the return of ioc.run() in main (LogicServer/LogicServer.cpp:4-17; likewise in both pool servers, whose
  sessions run on that io_context too). So the event loop ends first, when no handler is running; from
  then on no handler runs and no socket operation goes on, and only then can `_b_stop` be set. Behind
  the loop the model promises callbacks and calls of Send, not bytes written.
- A spurious wake-up is a step that can happen, but not one that is relied on: a schedule of own steps
  has none. (One would make a worker notice a stop that it has missed.)
- uuids are unique; handlers of one session do not overlap with themselves (strand, or the single
  thread that runs `io_context`), but a session's read and write handlers may overlap, which is more
  than the servers allow; `handle_accept` and `ClearSession` are atomic.
- The initial write of AsyncServer uses the queued copy of the buffer, and its callbacks are bound to
  `this` and both completion arguments.

## Model

| member | source | states |
|---|---|---|
| Codec.NetworkOrderIsBijective | LogicServer/MsgNode.cpp:29-36 | writing a signed 16-bit field and reading it back are inverse both ways, negative values included |
| Codec.NetworkOrderIsBigEndian | LogicServer/MsgNode.cpp:30-36 | the two bytes, most significant first, are the value modulo 65536 |
| Codec.WireLayout | LogicServer/MsgNode.cpp:27-40 | byte positions of id, length and body in both layouts |
| Codec.HeadFieldsAreReadBack | LogicServer/CSession.cpp:90-109 | a written header is refused if id or length exceeds 2048, and otherwise yields its fields |
| Codec.Limits | LogicServer/CSession.cpp:94-108 | byte for byte: id and length 2048 are taken and 2049 refused, and FF FF is id minus one, or a negative length |
| Codec.ParseEncoded | LogicServer/CSession.cpp:85-134 | an encoded frame in front of any bytes is recognised if legal and refused at its header if not |
| Codec.RoundTrip | LogicServer/MsgNode.cpp:27-40 | any list of frames written is read back up to its first illegal one; completely if and only if all are legal |
| Codec.ParseThenEncode | LogicServer/CSession.cpp:67-178 | the parsed frames written again, followed by the rest, are the stream; every parsed frame is legal |
| Codec.ParseIsTheOnlyReading | LogicServer/CSession.cpp:67-178 | any split of a stream into encoded legal frames and a frameless tail is the one the parser finds |
| Codec.ParseResumes | LogicServer/CSession.cpp:73-84 | parsing continues from the kept rest; a refused stream stays refused whatever follows |
| Codec.ChunkingIndependence | LogicServer/CSession.cpp:67-178 | feeding any pieces of a stream gives the frames, the stop and the rest of the whole |
| Codec.RoundTripInAnyChunking | LogicServer/MsgNode.cpp:27-40 | encoded frames cut in any way are read back one for one with nothing left, if and only if all are legal |
| MsgNodes.MsgNode.ForReceiving | LogicServer/MsgNode.cpp:7-25 | an empty node with its own fresh buffer, one byte longer than its length and zero at the end |
| MsgNodes.MsgNode.ForSending | LogicServer/MsgNode.cpp:27-40 | the copies of id, length and body into the buffer make it the encoding of the frame, zero-terminated |
| MsgNodes.MsgNode.Clear | LogicServer/MsgNode.cpp:17-20 | the node holds nothing afterwards and its bytes are zero |
| Sessions.CServer.ClearSession | LogicServer/CServer.cpp:10-13 | the uuid leaves the map, all else stays |
| Sessions.CServer.StartAccept | LogicServer/CServer.cpp:15-22 | a new session, not yet reading, waits for the next connection |
| Sessions.CServer.HandleAccept | LogicServer/CServer.cpp:24-33 | without error one read is armed and the session enters the map unless its uuid is there; in any case the next accept is armed with a new session |
| Sessions.CSession.Start | LogicServer/CSession.cpp:33-39 | exactly one read is armed |
| Sessions.CSession.KeepHeadPart | LogicServer/CSession.cpp:73-84 | a partial header is appended to what is kept, within bounds |
| Sessions.CSession.CompleteHead | LogicServer/CSession.cpp:85-93 | the header node holds the kept bytes and the new ones |
| Sessions.CSession.OpenBody | LogicServer/CSession.cpp:110-110 | a node no posted message shares memory with replaces the old one |
| Sessions.CSession.KeepBodyPart | LogicServer/CSession.cpp:147-158 | a partial body is appended to what is kept, within bounds |
| Sessions.CSession.CompleteBody | LogicServer/CSession.cpp:159-168 | the completed node is posted with the frame it holds and a zero behind it, and nothing is kept |
| Sessions.CSession.HeadTurn | LogicServer/CSession.cpp:72-144 | a loop turn at a header consumes at least one byte and takes one frame, keeps all, or refuses the header |
| Sessions.CSession.FirstBodyTurn | LogicServer/CSession.cpp:110-134 | the same behind an accepted header, with a new message node |
| Sessions.CSession.BodyTurn | LogicServer/CSession.cpp:146-168 | the same for a turn inside a body |
| Sessions.CSession.ReadChunk | LogicServer/CSession.cpp:70-178 | the loop ends; kept bytes and chunk are the encodings of the frames posted and a frameless tail |
| Sessions.CSession.CompleteRead | LogicServer/CSession.cpp:33-39 | the completion of the armed read: the bytes lie in the buffer, and no read is armed |
| Sessions.CSession.HandleRead | LogicServer/CSession.cpp:67-186 | posted messages are the frames of the stream so far and stay as posted; the rest is kept; one read is armed, or the session is cleared and none is; only memory of the session's own or new memory is taken |
| Sessions.CSession.OnRead | LogicServer/CSession.cpp:33-186 | a whole read, from an armed read to the next one or none; the session stays in the map exactly unless the read failed or a header was refused, and is closed exactly by a failed read |
| SendQueues.OfferKeeps | LogicServer/CSession.cpp:188-208 | Send keeps the pipeline invariant: one operation at a time, wire in order, sends accounted for |
| SendQueues.TransmitKeeps | LogicServer/CSession.cpp:203-207 | bytes going out keep it |
| SendQueues.PopKeeps | LogicServer/CSession.cpp:45-58 | a successful HandleWrite finds a front node, and keeps it |
| SendQueues.FailKeeps | LogicServer/CSession.cpp:59-64 | a failed write keeps it |
| SendQueues.SingleOutstandingSend | LogicServer/CSession.cpp:45-65 | in every run one operation or due handler exists exactly while the queue is non-empty and no write failed, and it carries the front node; and a write has failed exactly if the run holds a failing one |
| SendQueues.WhateverTheSocketDoes | LogicServer/CSession.cpp:45-65 | in front of an unfailed socket the queue has its write handler due, or one operation that can write any part of what is missing, complete exactly when nothing is, and break |
| SendQueues.NothingIsSentAfterAFailure | LogicServer/CSession.cpp:59-64 | after a write error no send is started and nothing popped or written in any further run |
| SendQueues.BackPressureAccounting | LogicServer/CSession.cpp:188-200 | at most 1025 queued, refusals exactly at that size; the sends of the run, in order, are those refused and those popped and queued |
| SendQueues.WireIsAPrefix | LogicServer/CSession.cpp:188-208 | the wire is a prefix of the encodings of the sends taken, and all of them with an empty queue |
| SendQueues.SendSide.Send | LogicServer/CSession.cpp:210-231 | the new queue and node, the operation started exactly if the queue was empty, or nothing when full |
| SendQueues.SendSide.HandleWrite | LogicServer/CSession.cpp:45-65 | pop and start the next node's send, or, on an error, leave the queue and the map entry goes |
| PartialWrites.CallKeeps | AsyncServer/Session.cpp:21-45 | both write calls keep order, and start an operation only when none is pending |
| PartialWrites.WholeOrInParts | AsyncServer/Session.cpp:21-45 | on an idle session WriteAll2Socket is through with one completion, which reports the whole buffer; WriteToSocket may be told of any part |
| PartialWrites.AfterWriteAllCallBack | AsyncServer/Session.cpp:83-105 | the finished node is popped and the next one started whole, bound to WriteCallBack |
| PartialWrites.ShortWriteKeeps | AsyncServer/Session.cpp:55-67 | after a short write the rest of the same node is sent next |
| PartialWrites.LastWriteKeeps | AsyncServer/Session.cpp:68-80 | after the last write of a node the next node is started whole |
| PartialWrites.WholeWriteKeeps | AsyncServer/Session.cpp:83-105 | WriteAllCallBack hands over to WriteCallBack without losing order |
| PartialWrites.WriteAllNeedsTheWholeBuffer | AsyncServer/Session.cpp:83-94 | it keeps the wire in order if and only if the whole buffer was written |
| PartialWrites.BreakKeeps | AsyncServer/Session.cpp:50-54 | an error leaves the queue and at most part of the front node beyond what is recorded |
| PartialWrites.PartialWritesStayInOrder | AsyncServer/Session.cpp:21-105 | in every run the wire is the completed buffers, in the order of the calls of the run, and the first `_cur_len` bytes of the front; pending exactly while the queue is non-empty; failed exactly after a break |
| PartialWrites.CompletionProgresses | AsyncServer/Session.cpp:47-105 | remaining bytes plus queue length falls with every successful completion |
| PartialWrites.TheQueueEmpties | AsyncServer/Session.cpp:47-105 | with no new call and no error only that many completions can follow, and they end with an empty queue and nothing pending |
| PartialWrites.Session.WriteToSocket | AsyncServer/Session.cpp:21-32 | the buffer is queued, and on an idle session one async_write_some of it bound to WriteCallBack is started |
| PartialWrites.Session.WriteAll2Socket | AsyncServer/Session.cpp:34-45 | the buffer is queued, and on an idle session one async_send of it bound to WriteAllCallBack is started |
| PartialWrites.Session.OnWrite | AsyncServer/Session.cpp:47-81 | on nodes, flag and operations: the front moves on by the bytes reported and its rest is sent, or it is popped and the next one started; an error leaves all |
| PartialWrites.Session.OnWriteAll | AsyncServer/Session.cpp:83-105 | the front is popped and the next one sent whole, bound to WriteCallBack; an error leaves all |
| Echoes.EchoRunKeeps | JsonServer/Session.cpp:291-343 | the bytes taken are the encodings of the messages delivered and the header in hand, in every run |
| Echoes.ReadsOn | JsonServer/Session.cpp:291-343 | in every run the session has stopped reading on an error exactly if a read failed, and otherwise only at a refused header; what arrived is what the run delivered |
| Echoes.TheTwoReadersAgree | JsonServer/Session.cpp:291-343 | unless a read failed, the exact-read pair delivers what the incremental parser finds, and stops at the same refused header |
| Echoes.RepliesInOrder | JsonServer/Session.cpp:227-343 | without a refused send the wire is a prefix of the encoded replies in order |
| Echoes.VerbatimEcho | JsonServer/Session.cpp:323-337 | the bytes written are a prefix of those received, and with an empty queue, no failed read and nothing whole to read, all whole frames received |
| EchoLiveness.EchoStepWorks | JsonServer/Session.cpp:227-343 | every own step of the session uses up some of a bounded amount of work |
| EchoLiveness.EveryArrivalIsAnswered | JsonServer/Session.cpp:227-343 | once nothing more arrives every schedule comes to rest within that bound, and unless a read failed with exactly the replies to all messages that arrived written |
| EchoLiveness.EveryStreamCanBeEchoed | JsonServer/Session.cpp:227-343 | any stream in any pieces: some run delivers it all without an error and writes exactly the replies to all its messages |
| Echoes.ExactSession.constructor | JsonServer/Session.cpp:58-66 | a new session reads a header |
| Echoes.ExactSession.HandleReadHead | JsonServer/Session.cpp:291-321 | starts the body read for an accepted length, and otherwise closes and leaves the map |
| Echoes.ExactSession.HandleReadMsg | JsonServer/Session.cpp:323-343 | sends the body back and reads the next header, still open and in the map; or, on an error, closes and leaves it |
| InlineServers.InlineRunKeeps | AsyncEchoServer2/Session.cpp:91-227 | the frames received are those answered and those about to be, in every run |
| InlineServers.InlineReadsOn | AsyncEchoServer2/Session.cpp:91-227 | in every run the session reads on unless a read failed or a header was refused, and has received what the reads of the run delivered |
| InlineServers.InlineEndToEnd | AsyncEchoServer2/Session.cpp:91-249 | without a refused send the wire is a prefix of the encoded replies in order, and at rest all of them |
| EchoLiveness.EveryReadIsAnswered | AsyncEchoServer2/Session.cpp:91-249 | once nothing more is received every schedule comes to rest within a bound, and then everything received is answered |
| EchoLiveness.EveryStreamCanBeRead | AsyncEchoServer2/Session.cpp:91-249 | any stream without a refused or negative length, in any reads of 1 to 2048 bytes: some run delivers it all, still reads, and has written exactly the replies to all its messages |
| LogicQueues.DrainedIsAll | LogicServer/LogicSystem.cpp:36-51 | draining pops everything queued, in order, and calls back exactly the registered messages among it |
| LogicSystems.LogicSystem.PostMsg2Que | LogicServer/LogicSystem.cpp:72-79 | a node that carries a message is pushed; a notification follows if and only if that made the size 1 |
| LogicSystems.LogicSystem.HandleFront | LogicServer/LogicSystem.cpp:52-62 | the front message is popped, and called back with its whole body if its id is registered |
| LogicSystems.LogicSystem.Drain | LogicServer/LogicSystem.cpp:36-51 | the whole queue is worked off, every registered message called back once in order |
| LogicSystems.LogicSystem.DealTurn | LogicServer/LogicSystem.cpp:36-62 | one message, or with stop seen the whole queue |
| LogicSystems.LogicSystem.CallsCarryWholeFrames | LogicServer/LogicSystem.cpp:59-61 | the callbacks are those of the registered messages popped, each with session, id and complete body, read from the nodes that were queued |
| LogicSystems.LogicSystem.Receive | LogicServer/CSession.cpp:67-178 | a whole read of one of any number of sessions, with its posts: the messages the chunk completes are pushed in order, the nodes queued before still hold theirs, the session leaves the map exactly on an error or a refused header, and all this holds again for the next read of any session |
| LogicSystems.LogicSystem.Accept | LogicServer/CServer.cpp:15-33 | an accepted session enters the map and reads, and with the one that waits next shares no memory with the others or with the queued nodes |
| ServerInvariants.MutexKept | LogicServer/LogicSystem.cpp:30-79 | `_mutex` is held by the worker or by one producer in its critical section |
| ServerInvariants.SendLocksKept | LogicServer/CSession.cpp:45-65 | each `_send_lock` is held by the worker inside that session's Send or by its write handler |
| ServerInvariants.FifoKept | LogicServer/LogicSystem.cpp:72-79 | messages posted = popped, then queued |
| ServerInvariants.WorkerPositionKept | LogicServer/LogicSystem.cpp:33-63 | the worker looks at a front message only where there is one, and drains only behind a stop |
| ServerInvariants.WakeUpKept | LogicServer/LogicSystem.cpp:30-35 | a sleeping worker with a non-empty queue has a producer that owes a notification |
| ServerInvariants.ParsingKept | LogicServer/CSession.cpp:67-178 | frames in the bytes received = posted, then about to be posted, per session |
| ServerInvariants.CallingKept | LogicServer/LogicSystem.cpp:52-62 | callbacks started = registered messages popped, then the one in hand |
| ServerInvariants.AnsweringKept | LogicServer/LogicSystem.cpp:18-28 | sends offered to a session = replies to its registered messages served, in order |
| ServerInvariants.PipesKept | LogicServer/CSession.cpp:45-65 | the pipeline invariant of every session |
| ServerInvariants.OwnedKept | LogicServer/CSession.cpp:130-131 | every step moves a session's owner count with its holders |
| ServerInvariants.ReachableInv | LogicServer/LogicSystem.cpp:30-79 | all of these hold in every reachable state |
| ServerTheorems.EndToEnd | LogicServer/CSession.cpp:67-231 | the wire is a prefix of the encoded replies to the registered messages received, in order, and at rest all of them |
| ServerSessions.ReadingGoesOn | LogicServer/CSession.cpp:67-186 | in every run a session has received exactly what its reads delivered; it stops reading only after a failed read of its own or at a refused header, and always after a failed read |
| ServerSessions.MappedExactlySoLong | LogicServer/CSession.cpp:59-186 | in every run a session is in the map until a read or a write of it fails or a header is refused, and not after |
| ServerSessions.WhateverTheClientDoes | LogicServer/CServer.cpp:15-33 | in every reachable state with the event loop running a client can connect, and a session that reads can be given any chunk up to the buffer that leads to no negative length, or a failed read |
| ServerSessions.WhateverTheSocketOfASessionDoes | LogicServer/CSession.cpp:45-65 | in every such state replies that wait have a write handler due, or can be written in any part, completed exactly when whole, or fail |
| ServerTheorems.NothingAfterARefusedHeader | LogicServer/CSession.cpp:94-108 | every frame in front of a refused header has been posted, none behind it ever is, and the session stays out of the map |
| ServerTheorems.PipelinesHold | LogicServer/CSession.cpp:188-231 | single outstanding send and back-pressure accounting with worker and write handlers on different threads |
| ServerTheorems.AFailedWriteIsFinal | LogicServer/CSession.cpp:59-64 | after a failed write of a session, whatever the whole server does, it starts no operation, pops and writes nothing, and stays out of the map |
| ServerTheorems.NoLostWakeUp | LogicServer/LogicSystem.cpp:72-79 | the worker never sleeps on a non-empty queue unless a producer still owes a notification |
| ServerTheorems.EveryFirstPushIsNotified | LogicServer/LogicSystem.cpp:72-79 | in every run notifications paid and owed are as many as the pushes that met an empty queue |
| ServerTheorems.CallbacksInOrder | LogicServer/LogicSystem.cpp:52-63 | first in, first out; callbacks are the registered messages in posting order, all of them once the queue is empty |
| ServerTheorems.ExactlyOnce | LogicServer/LogicSystem.cpp:52-63 | a popped message was called back as often as it was popped if registered, and never if not |
| ServerTheorems.StopDrainsFirst | LogicServer/LogicSystem.cpp:36-51 | a worker that has seen stop keeps the mutex and ends only when all messages posted are popped |
| WorkerTurns.OneTurnIsHandleFront | LogicServer/LogicSystem.cpp:52-62 | between looking at a message and popping it, whatever the other threads do, the logic queue changes as `HandleFront` changes it |
| WorkerTurns.StoppedWorkerDrains | LogicServer/LogicSystem.cpp:36-51 | from a seen stop to its end the worker changes the logic queue as `Drain` does: everything posted is popped, each registered message called back once |
| ServerStops.EveryScheduleEndsTheWorker | LogicServer/LogicSystem.cpp:32-70 | every schedule ends with the worker gone if and only if the stop was not notified in the gap |
| ServerStops.SomeScheduleEndsTheWorker | LogicServer/LogicSystem.cpp:32-70 | some schedule does under the same condition and no other |
| ServerStops.StopIsLostExactlyInTheGap | LogicServer/LogicSystem.cpp:32-70 | at rest behind a notified stop the worker has ended if and only if it was not in the gap, and else sleeps; either way everything received is popped, called back once and its replies handed to Send |
| ServerStops.AnEndedWorkerLeavesNothing | LogicServer/LogicSystem.cpp:36-51 | in every reachable state with an ended worker everything posted is popped and every registered message called back once |
| ServerStops.AsleepBehindAStop | LogicServer/LogicSystem.cpp:33-35 | a worker found asleep behind a notified stop was in its gap |
| ServerStops.TheGapLosesAStop | LogicServer/LogicSystem.cpp:66-70 | a stop set and notified between the worker's test and its wait is not noticed, and nobody is left to wake it |
| ServerStops.StopCanBeLost | LogicServer/LogicSystem.cpp:66-70 | every run with a message on its way can go on to a state with the worker asleep for good behind a notified stop |
| ServerStops.StopNotificationCanBeLost | LogicServer/LogicSystem.cpp:66-70 | such a run from the start, for any first message of a session, with its handlers and the event loop ended before the stop |
| ServerTheorems.LockOrder | LogicServer/LogicSystem.cpp:27-62 | `_send_lock` may be taken under `_mutex`, never the reverse |
| ServerTheorems.NoWaitingCycle | LogicServer/LogicSystem.cpp:27-79 | threads never wait for each other in a cycle |
| ServerTheorems.SessionLifetime | LogicServer/CSession.cpp:33-65 | owner count = holders; no step uses a destroyed session; mapped exactly while reading and no write failed |
| ServerTheorems.DestroyedIsFinal | LogicServer/CServer.cpp:10-13 | a session without owners is never touched again |
| ServerLiveness.Progress | LogicServer/LogicSystem.cpp:30-79 | unless everything is at rest the server can take a step of its own |
| ServerLiveness.StepWorks | LogicServer/LogicSystem.cpp:30-79 | each own step uses up some of a bounded amount of work |
| ServerLiveness.OwnStepsEnd | LogicServer/LogicSystem.cpp:30-79 | own steps cannot go on longer than the work left, in any order |
| ServerLiveness.RestMeansHandled | LogicServer/LogicSystem.cpp:18-63 | at rest, and wherever the worker has ended, everything received is popped, called back once, and its replies handed to Send |
| ServerLiveness.EveryMessageIsAnswered | LogicServer/CSession.cpp:67-231 | left to itself the server comes to rest within a bounded number of steps with everything handled, and as long as the event loop runs each session has written exactly its replies |
| ServerSessions.AtRestItReadsOn | LogicServer/CSession.cpp:130-143 | left to itself, a session comes to rest with its next read armed if and only if it was reading and met no refused header |
| ServerSessions.OneChunkIsNeverRefused | LogicServer/CSession.cpp:188-200 | of the messages that one chunk completes in a session with nothing left to do, no reply is refused, whatever the rest of the server does |
| ServerSessions.EveryStreamCanBeServed | LogicServer/CSession.cpp:33-231 | from any reachable state with the event loop running a new client can be accepted and any stream without a refused or negative header, in any chunks, be taken whole: the session still reads, is mapped, has nothing refused, and has written exactly the replies |

## Left out

- Sessions.CSession.HandleRead: a stream with a negative decoded length is excluded, because the C++ code has no defined behaviour there.
- SendQueues.SendSide.Send: a reply longer than 32767 bytes, whose length the code truncates to `short`, is not modelled.
- ServerTheorems.NoLostWakeUp: is about posting; the destructor's own notification can be lost, and `ServerStops` says when.
- ServerLiveness.EveryMessageIsAnswered: promises no bytes once the event loop is over, because nothing writes them.
- What main's end destroys behind the event loop (the io_context, the server with its map, the armed operations), and what Send then does with the socket; the owner counts of `Servers` keep these owners.
- The loop of `HandleRead` is one method per turn and the six places that re-arm a read are two, with the same branches.
- `LogicSystem.Receive` posts the messages of a chunk behind the parsing loop, where the code posts each inside it; the nodes are frozen in between.
- `LogicSystem.DealTurn` is one turn behind the wait; waiting and waking are steps of `Servers` only.
- The read and the send half of a session are two classes, because they share no field that changes.
- Sockets, acceptors, strands and the event loop are an environment that delivers chunks and completions; a failed accept only drops the new session and is not a step.
- JSON and protobuf parsing, and with it the texts of the replies.
- AsyncServer's read side, whose callbacks only fill and drop one buffer, and the client's Connect.
- The thread and io_context pools, Singleton, the gRPC and Beast servers, AsyncEchoServer, SyncServer, the clients, logging, and the two-second sleep in HandleReadMsg.
- Data races on `_b_stop` and on the unlocked session map: reads and writes of them are atomic steps.
