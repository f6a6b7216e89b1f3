/** The logic server as a whole: any number of sessions, the logic queue with its one worker, the
    send pipelines, and the threads that run on them, interleaved in any order.

    A session's handlers are run by Asio: `Reader(s)` is its read handler, `Writer(s)` its write
    handler.  Each step below is what one thread does between two points where another may run: it
    takes a lock, works inside a critical section, or works on what only it can reach.  What the
    steps do to a chunk, to the send queue and to the wire is defined by the functions the classes
    are proved against (`Parse`, `Offered`, `Popped`, ...). */
module Servers {
  import opened Codec
  import opened LogicQueues
  import opened SendQueues

  type Sid = nat

  /** A LogicNode: a session and a complete message of it. */
  type Node = Task<Sid>

  datatype Tid = Worker | Reader(s: Sid) | Writer(s: Sid)

  datatype Lock = Free | HeldBy(t: Tid)

  /** Where the read handler of a session is. */
  datatype ReaderPc =
    | Reading                                        // async_read_some armed
    | Handling(todo: seq<Frame>, refused: bool)      // inside HandleRead, messages left to post
    | Posting(todo: seq<Frame>, refused: bool)       // LogicNode made, PostMsg2Que wants _mutex
    | Pushing(todo: seq<Frame>, refused: bool)       // PostMsg2Que holds _mutex
    | Leaving(todo: seq<Frame>, refused: bool, node: nat, owes: bool)
                                                     // _mutex released; still holds the node, and
                                                     // may owe a notify_one
    | NoRead                                         // neither armed nor running

  datatype Sess = Sess(
    recv: seq<Byte>,      // bytes delivered by reads
    reader: ReaderPc,
    pipe: Pipe,
    sendLock: Lock,
    mapped: bool,         // in CServer's map
    refs: int)            // owners of the session object

  /** Where the worker is in DealMsg.  `drain` tells the loop behind a seen stop from the other. */
  datatype WorkerPc =
    | WNone                    // no LogicSystem yet: the first message creates it, with its worker
    | WStart                   // wants _mutex
    | WTest                    // evaluates the wait condition
    | WDoze                    // found nothing to do, about to wait
    | WAsleep                  // in wait, without the mutex
    | WWoken                   // in wait, wants the mutex back
    | WDrain                   // evaluates the loop condition behind a seen stop
    | WFront(drain: bool)      // looks up the front message
    | WCall(drain: bool)       // in the callback, Send wants _send_lock
    | WInSend(drain: bool)     // in the callback, Send holds _send_lock
    | WDone(drain: bool)       // the callback has returned
    | WExited

  /** How far the server is on its way down.  `~LogicSystem` runs when statics are destroyed, behind
      the return of ioc.run(): first the event loop ends, then _b_stop is set, then notified. */
  datatype StopPc = Running | LoopOver | StopSet | StopNotified(workerWas: WorkerPc)

  /** _b_stop is set. */
  predicate Flagged(p: StopPc) {
    p.StopSet? || p.StopNotified?
  }

  datatype Server = Server(
    sessions: seq<Sess>,
    queue: seq<Node>,
    posted: seq<Node>,     // every message pushed, in order
    taken: seq<Node>,      // every message popped, in order
    calls: seq<Node>,      // every callback started, in order
    mutex: Lock,
    worker: WorkerPc,
    stop: StopPc)

  /** The registered callbacks: the reply to a message, as HelloWorldCallback computes it. */
  type Callbacks = map<Short, Frame -> Frame>

  const NEW_SERVER := Server([], [], [], [], [], Free, WNone, Running)

  // ---------------------------------------------------------------- small helpers

  function B(b: bool): nat {
    if b then 1 else 0
  }

  function Put(v: Server, s: Sid, x: Sess): Server
    requires s < |v.sessions|
  {
    v.(sessions := v.sessions[s := x])
  }

  /** The logic queue with its history. */
  function LogicOf(v: Server): Logic<Sid> {
    Logic(v.queue, v.posted, v.taken, v.calls)
  }

  function WithLogic(v: Server, q: Logic<Sid>): Server {
    v.(queue := q.queue, posted := q.posted, taken := q.taken, calls := q.calls)
  }

  function Todo(r: ReaderPc): seq<Frame> {
    match r
    case Reading => []
    case NoRead => []
    case _ => r.todo
  }

  /** Starting a send copies the owner that the handler holds. */
  function Started(p: Pipe, q: Pipe): int {
    |q.flights| - |p.flights|
  }

  // ---------------------------------------------------------------- accepting and reading

  /** handle_accept: Start arms the first read (one owner), the map is the second. */
  function Accepted(v: Server): Server {
    v.(sessions := v.sessions + [Sess([], Reading, EMPTY_PIPE, Free, true, 2)])
  }

  predicate CanReadDone(v: Server, s: Sid, chunk: seq<Byte>) {
    && s < |v.sessions| && v.sessions[s].reader.Reading?
    && 0 < |chunk| <= MAX_LENGTH
    && Parse(Tlv, Parse(Tlv, v.sessions[s].recv).rest + chunk).stop != NegativeLength
  }

  /** A read completes: HandleRead continues from the rest of the stream. */
  function ReadDone(v: Server, s: Sid, chunk: seq<Byte>): Server
    requires CanReadDone(v, s, chunk)
  {
    var x := v.sessions[s];
    var p := Parse(Tlv, Parse(Tlv, x.recv).rest + chunk);
    Put(v, s, x.(recv := x.recv + chunk, reader := Handling(p.frames, p.stop == Refused)))
  }

  /** The session leaves the map and the read handler ends. */
  function Dropped(x: Sess): Sess {
    x.(reader := NoRead, mapped := false, refs := x.refs - B(x.mapped) - 1)
  }

  /** HandleRead with an error. */
  function ReadFailed(v: Server, s: Sid): Server
    requires s < |v.sessions|
  {
    Put(v, s, Dropped(v.sessions[s]))
  }

  /** LogicSystem::GetInstance(), which on its first call creates the worker, and then
      make_shared<LogicNode>(shared_from_this(), ...) */
  function MakeNode(v: Server, s: Sid): Server
    requires s < |v.sessions| && v.sessions[s].reader.Handling?
  {
    var x := v.sessions[s];
    Put(v, s, x.(reader := Posting(x.reader.todo, x.reader.refused), refs := x.refs + 1))
      .(worker := if v.worker.WNone? then WStart else v.worker)
  }

  function PostLock(v: Server, s: Sid): Server
    requires s < |v.sessions| && v.sessions[s].reader.Posting?
  {
    var x := v.sessions[s];
    Put(v, s, x.(reader := Pushing(x.reader.todo, x.reader.refused))).(mutex := HeldBy(Reader(s)))
  }

  /** Push, and unlock; only the push that makes the size 1 will notify. */
  function Push(v: Server, s: Sid): Server
    requires s < |v.sessions| && v.sessions[s].reader.Pushing? && v.sessions[s].reader.todo != []
  {
    var x := v.sessions[s];
    var n := Task(s, x.reader.todo[0]);
    var r := Leaving(x.reader.todo[1..], x.reader.refused, |v.posted|, PushNotifies(LogicOf(v), n));
    WithLogic(Put(v, s, x.(reader := r)), Pushed(LogicOf(v), n)).(mutex := Free)
  }

  function Notified(w: WorkerPc): WorkerPc {
    if w.WAsleep? then WWoken else w
  }

  /** PostMsg2Que returns: it notifies if it owes that, and gives up its hold on the node, which is
      the last one if the worker has popped the node already. */
  function Leave(v: Server, s: Sid): Server
    requires s < |v.sessions| && v.sessions[s].reader.Leaving?
  {
    var x := v.sessions[s];
    var r := x.reader;
    Put(v, s, x.(reader := Handling(r.todo, r.refused), refs := x.refs - B(r.node < |v.taken|)))
      .(worker := if r.owes then Notified(v.worker) else v.worker)
  }

  /** HandleRead ends: with a new read armed, or, behind a refused header, out of the map. */
  function EndRead(v: Server, s: Sid): Server
    requires s < |v.sessions| && v.sessions[s].reader.Handling?
  {
    var x := v.sessions[s];
    Put(v, s, if x.reader.refused then Dropped(x) else x.(reader := Reading))
  }

  // ---------------------------------------------------------------- the worker

  function WorkerLock(v: Server): Server {
    v.(mutex := HeldBy(Worker), worker := WTest)
  }

  /** The wait condition, and behind it the test of _b_stop. */
  function WorkerTest(v: Server): Server {
    v.(worker := if v.queue == [] && !Flagged(v.stop) then WDoze
                 else if Flagged(v.stop) then WDrain else WFront(false))
  }

  function WorkerSleep(v: Server): Server {
    v.(mutex := Free, worker := WAsleep)
  }

  function WorkerDrainTest(v: Server): Server {
    if v.queue == [] then v.(mutex := Free, worker := WExited) else v.(worker := WFront(true))
  }

  /** Pop: the node dies unless the producer still holds it; the lock is kept only while draining. */
  function PopFront(v: Server, drain: bool): Server
    requires v.queue != [] && v.queue[0].sid < |v.sessions|
  {
    var s := v.queue[0].sid;
    var x := v.sessions[s];
    var held := x.reader.Leaving? && x.reader.node == |v.taken|;
    WithLogic(Put(v, s, x.(refs := x.refs - B(!held))), FrontPopped(LogicOf(v)))
      .(mutex := if drain then v.mutex else Free, worker := if drain then WDrain else WStart)
  }

  /** Look up the callback; a call copies the session's owner. */
  function WorkerLook(cb: Callbacks, v: Server): Server
    requires v.worker.WFront? && v.queue != [] && v.queue[0].sid < |v.sessions|
  {
    if v.queue[0].frame.id !in cb then PopFront(v, v.worker.drain)
    else
      var s := v.queue[0].sid;
      var x := v.sessions[s];
      WithLogic(Put(v, s, x.(refs := x.refs + 1)), FrontCalled(LogicOf(v))).(worker := WCall(v.worker.drain))
  }

  function WorkerSendLock(v: Server): Server
    requires v.worker.WCall? && v.queue != [] && v.queue[0].sid < |v.sessions|
  {
    var s := v.queue[0].sid;
    Put(v, s, v.sessions[s].(sendLock := HeldBy(Worker))).(worker := WInSend(v.worker.drain))
  }

  /** Send, and the end of the callback. */
  function WorkerSend(cb: Callbacks, v: Server): Server
    requires v.worker.WInSend? && v.queue != [] && v.queue[0].sid < |v.sessions|
    requires v.queue[0].frame.id in cb
  {
    var Task(s, f) := v.queue[0];
    var x := v.sessions[s];
    var p := Offered(x.pipe, cb[f.id](f));
    Put(v, s, x.(pipe := p, sendLock := Free, refs := x.refs + Started(x.pipe, p) - 1))
      .(worker := WDone(v.worker.drain))
  }

  // ---------------------------------------------------------------- writing

  function WriteLock(v: Server, s: Sid): Server
    requires s < |v.sessions|
  {
    Put(v, s, v.sessions[s].(sendLock := HeldBy(Writer(s))))
  }

  /** HandleWrite without error. */
  function WritePop(v: Server, s: Sid): Server
    requires s < |v.sessions| && v.sessions[s].pipe.landed > 0
  {
    var x := v.sessions[s];
    var p := PipeStep(Tlv, x.pipe, Popping);
    Put(v, s, x.(pipe := p, sendLock := Free, refs := x.refs + Started(x.pipe, p) - 1))
  }

  /** HandleWrite with an error: the session leaves the map; reading goes on. */
  function WriteFailed(v: Server, s: Sid, i: nat): Server
    requires s < |v.sessions| && i < |v.sessions[s].pipe.flights|
  {
    var x := v.sessions[s];
    Put(v, s, x.(pipe := SendQueues.Failed(x.pipe, i), mapped := false, refs := x.refs - B(x.mapped) - 1))
  }

  /** The socket writes bytes of an operation, or completes one without error. */
  function SocketStep(v: Server, s: Sid, e: PipeEvent): Server
    requires s < |v.sessions| && PipeEnabled(Tlv, v.sessions[s].pipe, e)
  {
    Put(v, s, v.sessions[s].(pipe := PipeStep(Tlv, v.sessions[s].pipe, e)))
  }

  // ---------------------------------------------------------------- events

  datatype Event =
    | EvAccept
    | EvReadDone(s: Sid, chunk: seq<Byte>)
    | EvReadFailed(s: Sid)
    | EvMakeNode(s: Sid)
    | EvPostLock(s: Sid)
    | EvPush(s: Sid)
    | EvLeave(s: Sid)
    | EvEndRead(s: Sid)
    | EvWorkerLock
    | EvWorkerTest
    | EvWorkerSleep
    | EvSpurious
    | EvWorkerDrainTest
    | EvWorkerLook
    | EvWorkerSendLock
    | EvWorkerSend
    | EvWorkerPop
    | EvTransmit(s: Sid, i: nat, k: nat)
    | EvLand(s: Sid, i: nat)
    | EvWriteLock(s: Sid)
    | EvWritePop(s: Sid)
    | EvWriteFailed(s: Sid, i: nat)
    | EvLoopEnds
    | EvSetStop
    | EvNotifyStop

  /** Handlers and socket operations are run by the event loop. */
  predicate OfTheLoop(e: Event) {
    || e.EvAccept? || e.EvReadDone? || e.EvReadFailed? || e.EvMakeNode? || e.EvPostLock? || e.EvPush?
    || e.EvLeave? || e.EvEndRead? || e.EvTransmit? || e.EvLand? || e.EvWriteLock? || e.EvWritePop?
    || e.EvWriteFailed?
  }

  /** No handler of the session is running. */
  predicate Idle(x: Sess) {
    (x.reader.Reading? || x.reader.NoRead?) && !(x.sendLock.HeldBy? && x.sendLock.t.Writer?)
  }

  /** ioc.run() can return: no handler is running. */
  predicate HandlersIdle(v: Server) {
    forall s | 0 <= s < |v.sessions| :: Idle(v.sessions[s])
  }

  /** The front message and its session are there. */
  predicate HasFront(v: Server) {
    v.queue != [] && v.queue[0].sid < |v.sessions|
  }

  predicate Enabled(cb: Callbacks, v: Server, e: Event) {
    && (OfTheLoop(e) ==> v.stop.Running?)
    && match e
    case EvAccept => true
    case EvReadDone(s, chunk) => CanReadDone(v, s, chunk)
    case EvReadFailed(s) => s < |v.sessions| && v.sessions[s].reader.Reading?
    case EvMakeNode(s) => s < |v.sessions| && v.sessions[s].reader.Handling? && v.sessions[s].reader.todo != []
    case EvPostLock(s) => s < |v.sessions| && v.sessions[s].reader.Posting? && v.mutex == Free
    case EvPush(s) => s < |v.sessions| && v.sessions[s].reader.Pushing? && v.sessions[s].reader.todo != []
    case EvLeave(s) => s < |v.sessions| && v.sessions[s].reader.Leaving?
    case EvEndRead(s) => s < |v.sessions| && v.sessions[s].reader.Handling? && v.sessions[s].reader.todo == []
    case EvWorkerLock => (v.worker.WStart? || v.worker.WWoken?) && v.mutex == Free
    case EvWorkerTest => v.worker.WTest?
    case EvWorkerSleep => v.worker.WDoze?
    case EvSpurious => v.worker.WAsleep?
    case EvWorkerDrainTest => v.worker.WDrain?
    case EvWorkerLook => v.worker.WFront? && HasFront(v)
    case EvWorkerSendLock => v.worker.WCall? && HasFront(v) && v.sessions[v.queue[0].sid].sendLock == Free
    case EvWorkerSend => v.worker.WInSend? && HasFront(v) && v.queue[0].frame.id in cb
    case EvWorkerPop => v.worker.WDone? && HasFront(v)
    case EvTransmit(s, i, k) => s < |v.sessions| && k > 0 && CanTransmit(Tlv, v.sessions[s].pipe, i, k)
    case EvLand(s, i) => s < |v.sessions| && CanLand(Tlv, v.sessions[s].pipe, i)
    case EvWriteLock(s) => s < |v.sessions| && v.sessions[s].pipe.landed > 0 && v.sessions[s].sendLock == Free
    case EvWritePop(s) =>
      s < |v.sessions| && v.sessions[s].pipe.landed > 0 && v.sessions[s].sendLock == HeldBy(Writer(s))
    case EvWriteFailed(s, i) => s < |v.sessions| && i < |v.sessions[s].pipe.flights|
    case EvLoopEnds => v.stop.Running? && HandlersIdle(v)
    case EvSetStop => v.stop.LoopOver? && !v.worker.WNone?
    case EvNotifyStop => v.stop.StopSet?
  }

  function Step(cb: Callbacks, v: Server, e: Event): Server
    requires Enabled(cb, v, e)
  {
    match e
    case EvAccept => Accepted(v)
    case EvReadDone(s, chunk) => ReadDone(v, s, chunk)
    case EvReadFailed(s) => ReadFailed(v, s)
    case EvMakeNode(s) => MakeNode(v, s)
    case EvPostLock(s) => PostLock(v, s)
    case EvPush(s) => Push(v, s)
    case EvLeave(s) => Leave(v, s)
    case EvEndRead(s) => EndRead(v, s)
    case EvWorkerLock => WorkerLock(v)
    case EvWorkerTest => WorkerTest(v)
    case EvWorkerSleep => WorkerSleep(v)
    case EvSpurious => v.(worker := WWoken)
    case EvWorkerDrainTest => WorkerDrainTest(v)
    case EvWorkerLook => WorkerLook(cb, v)
    case EvWorkerSendLock => WorkerSendLock(v)
    case EvWorkerSend => WorkerSend(cb, v)
    case EvWorkerPop => PopFront(v, v.worker.drain)
    case EvTransmit(s, i, k) => SocketStep(v, s, Transmitting(i, k))
    case EvLand(s, i) => SocketStep(v, s, Landing(i))
    case EvWriteLock(s) => WriteLock(v, s)
    case EvWritePop(s) => WritePop(v, s)
    case EvWriteFailed(s, i) => WriteFailed(v, s, i)
    case EvLoopEnds => v.(stop := LoopOver)
    case EvSetStop => v.(stop := StopSet)
    case EvNotifyStop => v.(worker := Notified(v.worker), stop := StopNotified(v.worker))
  }

  /** `z` is reached from `v` by these events. */
  ghost predicate Run(cb: Callbacks, v: Server, events: seq<Event>, z: Server)
    decreases |events|
  {
    if events == [] then v == z
    else Enabled(cb, v, events[0]) && Run(cb, Step(cb, v, events[0]), events[1..], z)
  }
}
