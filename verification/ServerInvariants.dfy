/** What every step of the server keeps. */
module ServerInvariants {
  import opened Codec
  import opened LogicQueues
  import opened SendQueues
  import opened Servers

  // ---------------------------------------------------------------- locks

  predicate WorkerHolds(w: WorkerPc) {
    w.WTest? || w.WDoze? || w.WDrain? || w.WFront? || w.WCall? || w.WInSend? || w.WDone?
  }

  /** _mutex is held by the worker, or by the one read handler inside PostMsg2Que's critical section,
      or by nobody. */
  predicate MutexHeld(v: Server) {
    && (v.mutex == HeldBy(Worker) <==> WorkerHolds(v.worker))
    && (forall s | 0 <= s < |v.sessions| ::
          v.mutex == HeldBy(Reader(s)) <==> v.sessions[s].reader.Pushing?)
    && (v.mutex.HeldBy? ==> !v.mutex.t.Writer? && (v.mutex.t.Reader? ==> v.mutex.t.s < |v.sessions|))
  }

  /** A _send_lock is held by the worker inside that session's Send, or by the session's write
      handler, or by nobody. */
  predicate SendLocksHeld(v: Server) {
    && (forall s | 0 <= s < |v.sessions| ::
          match v.sessions[s].sendLock
          case Free => true
          case HeldBy(Worker) => v.worker.WInSend? && HasFront(v) && v.queue[0].sid == s
          case HeldBy(Writer(t)) => t == s && v.sessions[s].pipe.landed > 0
          case HeldBy(Reader(_)) => false)
    && (v.worker.WInSend? && HasFront(v) ==> v.sessions[v.queue[0].sid].sendLock == HeldBy(Worker))
  }

  // ---------------------------------------------------------------- the logic queue

  predicate AtFront(w: WorkerPc) {
    w.WFront? || w.WCall? || w.WInSend? || w.WDone?
  }

  /** First in, first out. */
  predicate Fifo(v: Server) {
    && v.posted == v.taken + v.queue
    && (forall i | 0 <= i < |v.posted| :: v.posted[i].sid < |v.sessions|)
    && (forall i | 0 <= i < |v.queue| :: v.queue[i].sid < |v.sessions|)
  }

  /** What each position in the code knows. */
  predicate Positions(cb: Callbacks, v: Server) {
    WorkerPosition(cb, v) && ReaderPositions(v)
  }

  predicate WorkerPosition(cb: Callbacks, v: Server) {
    && (AtFront(v.worker) ==> HasFront(v))
    && (v.worker.WCall? || v.worker.WInSend? || v.worker.WDone? ==> v.queue[0].frame.id in cb)
    && (v.worker.WDoze? ==> v.queue == [])
    && (v.worker.WNone? ==>
          && v.queue == [] && !Flagged(v.stop)
          && forall s | 0 <= s < |v.sessions| :: !IsPosting(v.sessions[s].reader))
    && (v.worker.WDrain? || v.worker.WExited? || (AtFront(v.worker) && v.worker.drain) ==> Flagged(v.stop))
    && (v.worker.WExited? ==> v.queue == [])
  }

  predicate IsPosting(r: ReaderPc) {
    r.Posting? || r.Pushing? || r.Leaving?
  }

  predicate ReaderPositions(v: Server) {
    forall s | 0 <= s < |v.sessions| ::
      var r := v.sessions[s].reader;
      && (r.Posting? || r.Pushing? ==> r.todo != [])
      && (r.Leaving? ==> r.node < |v.posted| && v.posted[r.node].sid == s)
  }

  predicate Owes(x: Sess) {
    x.reader.Leaving? && x.reader.owes
  }

  /** A worker asleep on a non-empty queue has a producer that is still going to notify it. */
  predicate WakeUpDue(v: Server) {
    v.worker.WAsleep? && v.queue != [] ==> exists s :: 0 <= s < |v.sessions| && Owes(v.sessions[s])
  }

  /** A stop that was notified while the worker was in the gap between its test and its wait. */
  predicate StopSeen(v: Server) {
    v.stop.StopNotified? && (v.worker.WAsleep? || v.worker.WDoze?) ==> v.stop.workerWas.WDoze?
  }

  /** Once the event loop is over no handler is running. */
  predicate LoopQuiet(v: Server) {
    !v.stop.Running? ==> HandlersIdle(v)
  }

  // ---------------------------------------------------------------- messages and replies

  /** The frames of one session, in order. */
  function Of(s: Sid, nodes: seq<Node>): seq<Frame> {
    if nodes == [] then []
    else
      var n := nodes[|nodes| - 1];
      Of(s, nodes[..|nodes| - 1]) + if n.sid == s then [n.frame] else []
  }

  /** The replies to the registered ones among these messages, in order. */
  function AnswersTo(cb: Callbacks, fs: seq<Frame>): seq<Frame> {
    if fs == [] then []
    else
      var f := fs[|fs| - 1];
      AnswersTo(cb, fs[..|fs| - 1]) + if f.id in cb then [cb[f.id](f)] else []
  }

  lemma OfOne(s: Sid, nodes: seq<Node>, n: Node)
    ensures Of(s, nodes + [n]) == Of(s, nodes) + if n.sid == s then [n.frame] else []
  {
    assert (nodes + [n])[..|nodes|] == nodes;
  }

  lemma AnswersToOne(cb: Callbacks, fs: seq<Frame>, f: Frame)
    ensures AnswersTo(cb, fs + [f]) == AnswersTo(cb, fs) + if f.id in cb then [cb[f.id](f)] else []
  {
    assert (fs + [f])[..|fs|] == fs;
  }

  /** The frames in the bytes received are those posted and those the handler is about to post. */
  predicate SessParsed(posted: seq<Node>, s: Sid, x: Sess) {
    var p := Parse(Tlv, x.recv);
    && p.frames == Of(s, posted) + Todo(x.reader)
    && p.stop != NegativeLength
    && match x.reader
       case Reading => p.stop == NeedMore
       case NoRead => true
       case _ => p.stop == Refused <==> x.reader.refused
  }

  predicate Parsing(v: Server) {
    forall s | 0 <= s < |v.sessions| :: SessParsed(v.posted, s, v.sessions[s])
  }

  /** The session's front message has been answered but not popped. */
  predicate JustAnswered(v: Server, s: Sid) {
    v.worker.WDone? && HasFront(v) && v.queue[0].sid == s
  }

  /** The messages of a session that the worker has finished with or answered. */
  function Served(v: Server, s: Sid): seq<Frame> {
    Of(s, v.taken) + if JustAnswered(v, s) then [v.queue[0].frame] else []
  }

  /** The sends offered to a session's pipeline are the replies to the messages served. */
  predicate Answering(cb: Callbacks, v: Server) {
    forall s | 0 <= s < |v.sessions| ::
      OfferedFrames(v.sessions[s].pipe.offers) == AnswersTo(cb, Served(v, s))
  }

  /** The worker is in the callback of the front message, or behind it. */
  predicate InCallback(v: Server) {
    (v.worker.WCall? || v.worker.WInSend? || v.worker.WDone?) && v.queue != []
  }

  /** The callbacks started are those of the registered messages popped, and of the front message
      while it is being handled. */
  predicate Calling(cb: Callbacks, v: Server) {
    v.calls == Registered(cb.Keys, v.taken) + if InCallback(v) then [v.queue[0]] else []
  }

  predicate Pipes(v: Server) {
    forall s | 0 <= s < |v.sessions| :: PipeOk(Tlv, v.sessions[s].pipe)
  }

  // ---------------------------------------------------------------- session lifetime

  function QueuedOf(s: Sid, nodes: seq<Node>): nat {
    if nodes == [] then 0 else B(nodes[0].sid == s) + QueuedOf(s, nodes[1..])
  }

  lemma {:induction false} QueuedOfOne(s: Sid, nodes: seq<Node>, n: Node)
    ensures QueuedOf(s, nodes + [n]) == QueuedOf(s, nodes) + B(n.sid == s)
  {
    if nodes != [] {
      QueuedOfOne(s, nodes[1..], n);
      assert (nodes + [n])[1..] == nodes[1..] + [n];
    } else {
      assert (nodes + [n])[1..] == [];
    }
  }

  /** A read armed or running. */
  predicate ReadAlive(r: ReaderPc) {
    !r.NoRead?
  }

  /** The producer alone still holds the node it posted, or holds one it has not pushed yet. */
  predicate HoldsNode(r: ReaderPc, taken: nat) {
    r.Posting? || r.Pushing? || (r.Leaving? && r.node < taken)
  }

  predicate InCallbackOf(v: Server, s: Sid) {
    (v.worker.WCall? || v.worker.WInSend?) && HasFront(v) && v.queue[0].sid == s
  }

  /** The owners of a session object: the map, the read handler, the write operations and handlers,
      the live logic nodes, and a running callback. */
  function OwnersOf(v: Server, s: Sid): nat
    requires s < |v.sessions|
  {
    var x := v.sessions[s];
    B(x.mapped) + B(ReadAlive(x.reader)) + |x.pipe.flights| + x.pipe.landed
    + QueuedOf(s, v.queue) + B(HoldsNode(x.reader, |v.taken|)) + B(InCallbackOf(v, s))
  }

  /** The owner count of a session matches its holders; the map holds exactly the sessions that read
      and whose writes have not failed. */
  predicate OwnedOne(v: Server, s: Sid)
    requires s < |v.sessions|
  {
    && v.sessions[s].refs == OwnersOf(v, s)
    && (v.sessions[s].mapped <==> ReadAlive(v.sessions[s].reader) && !v.sessions[s].pipe.failed)
  }

  predicate Owned(v: Server) {
    forall s | 0 <= s < |v.sessions| :: OwnedOne(v, s)
  }

  // ---------------------------------------------------------------- each is kept by every step

  lemma MutexKept(cb: Callbacks, v: Server, e: Event)
    requires MutexHeld(v) && Enabled(cb, v, e)
    ensures MutexHeld(Step(cb, v, e))
  {
    hide PipeStep, Offered, Parse, CanTransmit, CanLand, PipeEnabled, HandlersIdle, Started, SendQueues.Failed;
  }

  /** Only a write handler uses up a completion. */
  lemma LandedStays(p: Pipe, e: PipeEvent)
    requires PipeEnabled(Tlv, p, e) && !e.Popping?
    ensures PipeStep(Tlv, p, e).landed >= p.landed
  {}

  /** A step on one session's pipeline that leaves all locks alone. */
  lemma PipeStepKeepsLocks(v: Server, s: Sid, x: Sess)
    requires SendLocksHeld(v) && s < |v.sessions|
    requires x.sendLock == v.sessions[s].sendLock && x.pipe.landed >= v.sessions[s].pipe.landed
    ensures SendLocksHeld(Put(v, s, x))
  {}

  lemma SendLocksKept(cb: Callbacks, v: Server, e: Event)
    requires MutexHeld(v) && SendLocksHeld(v) && Fifo(v) && Positions(cb, v) && Enabled(cb, v, e)
    ensures SendLocksHeld(Step(cb, v, e))
  {
    hide PipeStep, Offered, Parse, CanTransmit, CanLand, Encode, Fifo;
    match e
    case EvTransmit(s, i, k) =>
      LandedStays(v.sessions[s].pipe, Transmitting(i, k));
      PipeStepKeepsLocks(v, s, Step(cb, v, e).sessions[s]);
    case EvLand(s, i) =>
      LandedStays(v.sessions[s].pipe, Landing(i));
      PipeStepKeepsLocks(v, s, Step(cb, v, e).sessions[s]);
    case EvWriteFailed(s, i) => PipeStepKeepsLocks(v, s, Step(cb, v, e).sessions[s]);
    case EvWorkerSend =>
      var Task(s, f) := v.queue[0];
      LandedStays(v.sessions[s].pipe, Offering(cb[f.id](f)));
    case EvWorkerLook => WorkerKeepsSendLocks(cb, v, e);
    case EvWorkerSendLock => WorkerKeepsSendLocks(cb, v, e);
    case EvWorkerPop => WorkerKeepsSendLocks(cb, v, e);
    case _ =>
      if OfAReader(e) {
        ReadersKeepSendLocks(cb, v, e);
      } else {
        OthersKeepSendLocks(cb, v, e);
      }
  }

  predicate OfAReader(e: Event) {
    || e.EvReadDone? || e.EvReadFailed? || e.EvMakeNode? || e.EvPostLock? || e.EvPush? || e.EvLeave? || e.EvEndRead?
  }

  lemma ReadersKeepSendLocks(cb: Callbacks, v: Server, e: Event)
    requires MutexHeld(v) && SendLocksHeld(v) && Positions(cb, v) && Enabled(cb, v, e) && OfAReader(e)
    ensures SendLocksHeld(Step(cb, v, e))
  {
    hide PipeStep, Offered, Parse, CanTransmit, CanLand, Encode;
  }

  lemma WorkerKeepsSendLocks(cb: Callbacks, v: Server, e: Event)
    requires MutexHeld(v) && SendLocksHeld(v) && Positions(cb, v) && Enabled(cb, v, e)
    requires e.EvWorkerLook? || e.EvWorkerSendLock? || e.EvWorkerPop?
    ensures SendLocksHeld(Step(cb, v, e))
  {
    hide PipeStep, Offered, Parse, CanTransmit, CanLand, Encode;
  }

  lemma OthersKeepSendLocks(cb: Callbacks, v: Server, e: Event)
    requires MutexHeld(v) && SendLocksHeld(v) && Positions(cb, v) && Enabled(cb, v, e)
    requires !e.EvTransmit? && !e.EvLand? && !e.EvWriteFailed? && !e.EvWorkerSend?
    requires !e.EvWorkerLook? && !e.EvWorkerSendLock? && !e.EvWorkerPop? && !OfAReader(e)
    ensures SendLocksHeld(Step(cb, v, e))
  {
    hide PipeStep, Offered, Parse, CanTransmit, CanLand, Encode;
  }

  lemma FifoKept(cb: Callbacks, v: Server, e: Event)
    requires Fifo(v) && Enabled(cb, v, e)
    ensures Fifo(Step(cb, v, e))
  {
    hide PipeStep, Offered, Parse, CanTransmit, CanLand, PipeEnabled, HandlersIdle, Started, SendQueues.Failed;
  }

  lemma WorkerPositionKept(cb: Callbacks, v: Server, e: Event)
    requires MutexHeld(v) && Fifo(v) && WorkerPosition(cb, v) && Enabled(cb, v, e)
    ensures WorkerPosition(cb, Step(cb, v, e))
  {
    if OfTheLoop(e) {
      LoopKeepsWorkerPosition(cb, v, e);
    } else {
      hide PipeStep, Offered, Parse, MutexHeld;
    }
  }

  lemma LoopKeepsWorkerPosition(cb: Callbacks, v: Server, e: Event)
    requires MutexHeld(v) && WorkerPosition(cb, v) && Enabled(cb, v, e) && OfTheLoop(e)
    ensures WorkerPosition(cb, Step(cb, v, e))
  {
    hide PipeStep, Offered, Parse, CanTransmit, CanLand, PipeEnabled;
  }

  lemma ReaderPositionsKept(cb: Callbacks, v: Server, e: Event)
    requires ReaderPositions(v) && Enabled(cb, v, e)
    ensures ReaderPositions(Step(cb, v, e))
  {
    hide PipeStep, Offered, Parse, CanTransmit, CanLand, PipeEnabled;
  }

  lemma WakeUpKept(cb: Callbacks, v: Server, e: Event)
    requires MutexHeld(v) && Positions(cb, v) && WakeUpDue(v) && Enabled(cb, v, e)
    ensures WakeUpDue(Step(cb, v, e))
  {
    var z := Step(cb, v, e);
    if z.worker.WAsleep? && z.queue != [] {
      if e.EvPush? && v.queue == [] {
        assert Owes(z.sessions[e.s]);
      } else {
        AsleepBefore(cb, v, e);
        hide Step, Enabled, MutexHeld, Positions;
        var s :| 0 <= s < |v.sessions| && Owes(v.sessions[s]);
        DebtStays(cb, v, e, s);
      }
    }
  }

  /** Only its handler pays a debt. */
  lemma DebtStays(cb: Callbacks, v: Server, e: Event, s: Sid)
    requires Enabled(cb, v, e) && s < |v.sessions| && Owes(v.sessions[s]) && e != EvLeave(s)
    ensures s < |Step(cb, v, e).sessions| && Owes(Step(cb, v, e).sessions[s])
  {
    hide PipeStep, Offered, Parse, CanTransmit, CanLand, PipeEnabled;
  }

  /** A worker asleep on a queue that was not just filled has been there before. */
  lemma AsleepBefore(cb: Callbacks, v: Server, e: Event)
    requires MutexHeld(v) && Positions(cb, v) && Enabled(cb, v, e)
    requires Step(cb, v, e).worker.WAsleep? && Step(cb, v, e).queue != [] && !(e.EvPush? && v.queue == [])
    ensures v.worker.WAsleep? && v.queue != []
    ensures forall s | 0 <= s < |v.sessions| && Owes(v.sessions[s]) :: e != EvLeave(s)
  {
    hide PipeStep, Offered, Parse, CanTransmit, CanLand, PipeEnabled;
  }

  lemma StopSeenKept(cb: Callbacks, v: Server, e: Event)
    requires StopSeen(v) && Enabled(cb, v, e)
    ensures StopSeen(Step(cb, v, e))
  {
    hide PipeStep, Offered, Parse, CanTransmit, CanLand, PipeEnabled;
  }

  lemma LoopQuietKept(cb: Callbacks, v: Server, e: Event)
    requires LoopQuiet(v) && Enabled(cb, v, e)
    ensures LoopQuiet(Step(cb, v, e))
  {
    hide PipeStep, Offered, Parse, CanTransmit, CanLand, PipeEnabled;
  }

  lemma PipesKept(cb: Callbacks, v: Server, e: Event)
    requires Pipes(v) && Enabled(cb, v, e)
    ensures Pipes(Step(cb, v, e))
  {
    hide PipeOk, PipeStep, Offered, Parse, CanTransmit, CanLand;
    match e
    case EvWorkerSend =>
      var Task(s, f) := v.queue[0];
      OfferKeeps(Tlv, v.sessions[s].pipe, cb[f.id](f));
    case EvTransmit(s, i, k) => PipeStepKeeps(Tlv, v.sessions[s].pipe, Transmitting(i, k));
    case EvLand(s, i) => PipeStepKeeps(Tlv, v.sessions[s].pipe, Landing(i));
    case EvWritePop(s) => PipeStepKeeps(Tlv, v.sessions[s].pipe, Popping);
    case EvWriteFailed(s, i) => FailKeeps(Tlv, v.sessions[s].pipe, i);
    case EvAccept => assert PipeOk(Tlv, EMPTY_PIPE) by { EmptyPipeIsOk(); }
    case _ =>
  }

  lemma EmptyPipeIsOk()
    ensures PipeOk(Tlv, EMPTY_PIPE)
  {}

  /** A session that does not exist yet has no messages. */
  lemma {:induction false} OfNobody(v: Server, nodes: seq<Node>)
    requires forall i | 0 <= i < |nodes| :: nodes[i].sid < |v.sessions|
    ensures Of(|v.sessions|, nodes) == []
  {
    if nodes != [] {
      OfNobody(v, nodes[..|nodes| - 1]);
    }
  }

  lemma ReadDoneKeepsParsing(v: Server, s: Sid, chunk: seq<Byte>)
    requires Parsing(v) && CanReadDone(v, s, chunk)
    ensures Parsing(ReadDone(v, s, chunk))
  {
    assert SessParsed(v.posted, s, v.sessions[s]);
    ParseResumes(Tlv, v.sessions[s].recv, chunk);
    hide Parse, Of;
    assert Of(s, v.posted) + [] == Of(s, v.posted);
  }

  lemma PushKeepsParsing(v: Server, s: Sid)
    requires Parsing(v) && s < |v.sessions| && v.sessions[s].reader.Pushing? && v.sessions[s].reader.todo != []
    ensures Parsing(Push(v, s))
  {
    hide Parse, Of;
    var z := Push(v, s);
    var todo := v.sessions[s].reader.todo;
    forall t | 0 <= t < |v.sessions| ensures SessParsed(z.posted, t, z.sessions[t]) {
      assert SessParsed(v.posted, t, v.sessions[t]);
      OfOne(t, v.posted, Task(s, todo[0]));
      assert Of(s, v.posted) + todo == Of(s, v.posted) + [todo[0]] + todo[1..];
    }
  }

  /** Steps that move only program counters, locks and pipelines. */
  lemma OthersKeepParsing(cb: Callbacks, v: Server, e: Event)
    requires Parsing(v) && Enabled(cb, v, e)
    requires !e.EvAccept? && !e.EvReadDone? && !e.EvPush?
    requires !e.EvReadFailed? && !e.EvMakeNode? && !e.EvPostLock? && !e.EvLeave? && !e.EvEndRead?
    ensures Parsing(Step(cb, v, e))
  {
    hide PipeStep, Offered, Parse, CanTransmit, CanLand, PipeEnabled, Of;
  }

  lemma ParsingKept(cb: Callbacks, v: Server, e: Event)
    requires Fifo(v) && Parsing(v) && Enabled(cb, v, e)
    ensures Parsing(Step(cb, v, e))
  {
    NothingParsed();
    hide PipeStep, Offered, Parse, CanTransmit, CanLand, PipeEnabled, Of;
    match e
    case EvReadDone(s, chunk) => ReadDoneKeepsParsing(v, s, chunk);
    case EvPush(s) => PushKeepsParsing(v, s);
    case EvAccept => OfNobody(v, v.posted);
    case EvReadFailed(_) =>
    case EvMakeNode(_) =>
    case EvPostLock(_) =>
    case EvLeave(_) =>
    case EvEndRead(_) =>
    case _ => OthersKeepParsing(cb, v, e);
  }

  lemma NothingParsed()
    ensures Parse(Tlv, []) == Parsed([], [], NeedMore)
  {}

  /** The callback answers the front message. */
  lemma SendKeepsAnswering(cb: Callbacks, v: Server)
    requires Positions(cb, v) && Answering(cb, v) && Enabled(cb, v, EvWorkerSend)
    ensures Answering(cb, WorkerSend(cb, v))
  {
    var z := WorkerSend(cb, v);
    var Task(s, f) := v.queue[0];
    PipeStepHistory(Tlv, v.sessions[s].pipe, Offering(cb[f.id](f)));
    AnswersToOne(cb, Of(s, v.taken), f);
    hide Parse, Offered, AnswersTo, Of, OfferedFrames;
    forall t | 0 <= t < |z.sessions|
      ensures OfferedFrames(z.sessions[t].pipe.offers) == AnswersTo(cb, Served(z, t))
    {
      assert Served(v, t) == Of(t, v.taken);
      assert t != s ==> Served(z, t) == Of(t, v.taken);
    }
  }

  /** A message is popped behind its answer, or because nobody is registered for it. */
  lemma PopKeepsAnswering(cb: Callbacks, v: Server, drain: bool)
    requires Answering(cb, v) && HasFront(v)
    requires v.worker.WDone? || (v.worker.WFront? && v.queue[0].frame.id !in cb)
    ensures Answering(cb, PopFront(v, drain))
  {
    var z := PopFront(v, drain);
    var Task(s, f) := v.queue[0];
    AnswersToOne(cb, Of(s, v.taken), f);
    hide Parse, AnswersTo, Of, OfferedFrames;
    forall t | 0 <= t < |z.sessions|
      ensures OfferedFrames(z.sessions[t].pipe.offers) == AnswersTo(cb, Served(z, t))
    {
      OfOne(t, v.taken, v.queue[0]);
      assert Of(t, v.taken) + [] == Of(t, v.taken);
      assert AnswersTo(cb, Of(t, v.taken)) + [] == AnswersTo(cb, Of(t, v.taken));
      assert Served(z, t) == Of(t, z.taken);
      assert t != s ==> Served(v, t) == Of(t, v.taken);
    }
  }

  /** The socket and the write handler offer nothing. */
  lemma PipeKeepsAnswering(cb: Callbacks, v: Server, s: Sid, x: Sess, e: PipeEvent)
    requires Answering(cb, v) && s < |v.sessions| && PipeEnabled(Tlv, v.sessions[s].pipe, e) && !e.Offering?
    requires x.pipe == PipeStep(Tlv, v.sessions[s].pipe, e)
    ensures Answering(cb, Put(v, s, x))
  {
    PipeStepHistory(Tlv, v.sessions[s].pipe, e);
    hide PipeStep, AnswersTo, Of, OfferedFrames;
    forall t | 0 <= t < |v.sessions| ensures Served(Put(v, s, x), t) == Served(v, t) {}
  }

  lemma SocketKeepsAnswering(cb: Callbacks, v: Server, e: Event)
    requires Answering(cb, v) && Enabled(cb, v, e) && (e.EvTransmit? || e.EvLand? || e.EvWritePop?)
    ensures Answering(cb, Step(cb, v, e))
  {
    hide PipeStep, AnswersTo, Of, OfferedFrames, CanTransmit, CanLand;
    var x := Step(cb, v, e).sessions[e.s];
    match e
    case EvTransmit(s, i, k) => PipeKeepsAnswering(cb, v, s, x, Transmitting(i, k));
    case EvLand(s, i) => PipeKeepsAnswering(cb, v, s, x, Landing(i));
    case EvWritePop(s) =>
      PipeKeepsAnswering(cb, v, s, x, Popping);
  }

  /** Other steps change neither the messages served nor the sends offered. */
  lemma OthersKeepAnswering(cb: Callbacks, v: Server, e: Event)
    requires Positions(cb, v) && Answering(cb, v) && Enabled(cb, v, e)
    requires !e.EvAccept? && !e.EvWorkerSend? && !e.EvWorkerLook? && !e.EvWorkerPop?
    requires !e.EvTransmit? && !e.EvLand? && !e.EvWritePop?
    ensures Answering(cb, Step(cb, v, e))
  {
    hide PipeStep, Offered, Parse, CanTransmit, CanLand, PipeEnabled, AnswersTo, Of, OfferedFrames;
  }

  lemma AnsweringKept(cb: Callbacks, v: Server, e: Event)
    requires Fifo(v) && Positions(cb, v) && Answering(cb, v) && Enabled(cb, v, e)
    ensures Answering(cb, Step(cb, v, e))
  {
    hide PipeStep, Offered, Parse, AnswersTo, Of, OfferedFrames, CanTransmit, CanLand;
    match e
    case EvWorkerSend => SendKeepsAnswering(cb, v);
    case EvWorkerPop => PopKeepsAnswering(cb, v, v.worker.drain);
    case EvWorkerLook =>
      if v.queue[0].frame.id !in cb {
        PopKeepsAnswering(cb, v, v.worker.drain);
      }
    case EvTransmit(_, _, _) => SocketKeepsAnswering(cb, v, e);
    case EvLand(_, _) => SocketKeepsAnswering(cb, v, e);
    case EvWritePop(_) => SocketKeepsAnswering(cb, v, e);
    case EvAccept => AcceptKeepsAnswering(cb, v);
    case _ => OthersKeepAnswering(cb, v, e);
  }

  lemma AcceptKeepsAnswering(cb: Callbacks, v: Server)
    requires Fifo(v) && Positions(cb, v) && Answering(cb, v)
    ensures Answering(cb, Accepted(v))
  {
    assert forall i | 0 <= i < |v.taken| :: v.taken[i] == v.posted[i];
    OfNobody(v, v.taken);
    var z := Accepted(v);
    assert Served(z, |v.sessions|) == [];
    assert AnswersTo(cb, []) == [] && OfferedFrames([]) == [];
    hide AnswersTo, Of, OfferedFrames;
    forall t | 0 <= t < |v.sessions| ensures Served(z, t) == Served(v, t) {}
  }

  lemma CallingKept(cb: Callbacks, v: Server, e: Event)
    requires Positions(cb, v) && Calling(cb, v) && Enabled(cb, v, e)
    ensures Calling(cb, Step(cb, v, e))
  {
    hide PipeStep, Offered, Parse, CanTransmit, CanLand, PipeEnabled, Registered;
    if e.EvWorkerLook? || e.EvWorkerPop? {
      RegisteredOne(cb.Keys, v.taken, v.queue[0]);
    } else {
      OthersKeepCalling(cb, v, e);
    }
  }

  /** Other steps start no callback, and leave the front message alone while one runs. */
  lemma OthersKeepCalling(cb: Callbacks, v: Server, e: Event)
    requires Positions(cb, v) && Enabled(cb, v, e) && !e.EvWorkerLook? && !e.EvWorkerPop?
    ensures var z := Step(cb, v, e);
            && z.calls == v.calls && z.taken == v.taken
            && (InCallback(z) <==> InCallback(v))
            && (InCallback(v) ==> z.queue[0] == v.queue[0])
  {
    hide PipeStep, Offered, Parse, CanTransmit, CanLand, PipeEnabled;
  }

  // ---------------------------------------------------------------- ownership is kept

  lemma {:induction false} QueuedOfNobody(s: Sid, nodes: seq<Node>)
    requires forall i | 0 <= i < |nodes| :: nodes[i].sid < s
    ensures QueuedOf(s, nodes) == 0
  {
    if nodes != [] {
      QueuedOfNobody(s, nodes[1..]);
    }
  }

  lemma AcceptKeepsOwned(cb: Callbacks, v: Server)
    requires Fifo(v) && Positions(cb, v) && Owned(v)
    ensures Owned(Accepted(v))
  {
    QueuedOfNobody(|v.sessions|, v.queue);
    hide QueuedOf;
    var z := Accepted(v);
    forall t | 0 <= t < |v.sessions| ensures OwnedOne(z, t) {
      assert OwnedOne(v, t);
    }
  }

  lemma PushKeepsOwned(cb: Callbacks, v: Server, s: Sid)
    requires Fifo(v) && Positions(cb, v) && Owned(v) && Enabled(cb, v, EvPush(s))
    ensures Owned(Push(v, s))
  {
    hide QueuedOf;
    var z := Push(v, s);
    forall t | 0 <= t < |v.sessions| ensures OwnedOne(z, t) {
      assert OwnedOne(v, t);
      QueuedOfOne(t, v.queue, z.queue[|v.queue|]);
    }
  }

  /** The worker lets go of the front node.  It dies with that, unless its producer has not returned
      from PostMsg2Que; no other producer can be holding it. */
  lemma PopKeepsOwned(cb: Callbacks, v: Server, drain: bool)
    requires Fifo(v) && Positions(cb, v) && Owned(v) && HasFront(v) && (v.worker.WDone? || v.worker.WFront?)
    ensures Owned(PopFront(v, drain))
  {
    var z := PopFront(v, drain);
    assert v.posted[|v.taken|] == v.queue[0];
    forall t | 0 <= t < |v.sessions| ensures OwnedOne(z, t) {
      assert OwnedOne(v, t);
    }
  }

  /** A step on the session's pipeline: its operations and due handlers, its owners and its place in
      the map change together. */
  lemma PipeKeepsOwned(v: Server, s: Sid, x: Sess)
    requires Owned(v) && s < |v.sessions|
    requires var y := v.sessions[s];
             && x.reader == y.reader
             && (if x.pipe.failed == y.pipe.failed then x.mapped == y.mapped else x.pipe.failed && !x.mapped)
             && x.refs - B(x.mapped) - |x.pipe.flights| - x.pipe.landed
                == y.refs - B(y.mapped) - |y.pipe.flights| - y.pipe.landed
    ensures Owned(Put(v, s, x))
  {
    hide QueuedOf;
    forall t | 0 <= t < |v.sessions| ensures OwnedOne(Put(v, s, x), t) {
      assert OwnedOne(v, t);
    }
  }

  lemma PipeStepBalance(p: Pipe, e: PipeEvent)
    requires PipeOk(Tlv, p) && PipeEnabled(Tlv, p, e) && (e.Transmitting? || e.Landing? || e.Popping?)
    ensures var q := PipeStep(Tlv, p, e);
            && q.failed == p.failed
            && |q.flights| + q.landed
            == if e.Popping? then |p.flights| + p.landed + Started(p, q) - 1 else |p.flights| + p.landed
  {
    if e.Popping? {
      PopKeeps(Tlv, p);
    }
  }

  lemma SocketKeepsOwned(cb: Callbacks, v: Server, e: Event)
    requires Pipes(v) && Owned(v) && Enabled(cb, v, e)
    requires e.EvTransmit? || e.EvLand? || e.EvWritePop? || e.EvWriteFailed?
    ensures Owned(Step(cb, v, e))
  {
    hide PipeStep, PipeOk, CanTransmit, CanLand, Owned;
    var x := Step(cb, v, e).sessions[e.s];
    match e {
      case EvTransmit(s, i, k) => PipeStepBalance(v.sessions[s].pipe, Transmitting(i, k));
      case EvLand(s, i) => PipeStepBalance(v.sessions[s].pipe, Landing(i));
      case EvWritePop(s) => PipeStepBalance(v.sessions[s].pipe, Popping);
      case EvWriteFailed(s, i) => NoFailureYet(v.sessions[s].pipe, i);
    }
    PipeKeepsOwned(v, e.s, x);
  }

  lemma NoFailureYet(p: Pipe, i: nat)
    requires PipeOk(Tlv, p) && i < |p.flights|
    ensures !p.failed
  {}

  lemma SendKeepsOwned(cb: Callbacks, v: Server)
    requires Fifo(v) && Positions(cb, v) && Owned(v) && Enabled(cb, v, EvWorkerSend)
    ensures Owned(WorkerSend(cb, v))
  {
    hide QueuedOf;
    var z := WorkerSend(cb, v);
    forall t | 0 <= t < |v.sessions| ensures OwnedOne(z, t) {
      assert OwnedOne(v, t);
    }
  }

  /** Steps of the read handler on its own session. */
  lemma ReaderKeepsOwned(cb: Callbacks, v: Server, e: Event)
    requires Owned(v) && Enabled(cb, v, e)
    requires e.EvReadDone? || e.EvReadFailed? || e.EvMakeNode? || e.EvPostLock? || e.EvLeave? || e.EvEndRead?
    ensures Owned(Step(cb, v, e))
  {
    hide QueuedOf, Parse;
    var z := Step(cb, v, e);
    forall t | 0 <= t < |v.sessions| ensures OwnedOne(z, t) {
      assert OwnedOne(v, t);
    }
  }

  lemma OthersKeepOwned(cb: Callbacks, v: Server, e: Event)
    requires Owned(v) && Enabled(cb, v, e)
    requires e.EvWorkerLock? || e.EvWorkerTest? || e.EvWorkerSleep? || e.EvSpurious? || e.EvWorkerDrainTest?
             || e.EvWorkerSendLock? || e.EvWriteLock? || e.EvLoopEnds? || e.EvSetStop? || e.EvNotifyStop?
             || (e.EvWorkerLook? && v.queue[0].frame.id in cb)
    ensures Owned(Step(cb, v, e))
  {
    hide QueuedOf, Parse, HandlersIdle, Pipes, PipeStep, Offered, PipeEnabled;
    var z := Step(cb, v, e);
    forall t | 0 <= t < |v.sessions| ensures OwnedOne(z, t) {
      assert OwnedOne(v, t);
    }
  }

  lemma OwnedKept(cb: Callbacks, v: Server, e: Event)
    requires Fifo(v) && Positions(cb, v) && Pipes(v) && Owned(v) && Enabled(cb, v, e)
    ensures Owned(Step(cb, v, e))
  {
    hide Owned, Pipes, PipeStep, Parse, CanTransmit, CanLand;
    match e
    case EvAccept => AcceptKeepsOwned(cb, v);
    case EvPush(s) => PushKeepsOwned(cb, v, s);
    case EvWorkerPop => PopKeepsOwned(cb, v, v.worker.drain);
    case EvWorkerLook =>
      if v.queue[0].frame.id !in cb {
        PopKeepsOwned(cb, v, v.worker.drain);
      } else {
        OthersKeepOwned(cb, v, e);
      }
    case EvWorkerSend => SendKeepsOwned(cb, v);
    case EvTransmit(_, _, _) => SocketKeepsOwned(cb, v, e);
    case EvLand(_, _) => SocketKeepsOwned(cb, v, e);
    case EvWritePop(_) => SocketKeepsOwned(cb, v, e);
    case EvWriteFailed(_, _) => SocketKeepsOwned(cb, v, e);
    case EvReadDone(_, _) => ReaderKeepsOwned(cb, v, e);
    case EvReadFailed(_) => ReaderKeepsOwned(cb, v, e);
    case EvMakeNode(_) => ReaderKeepsOwned(cb, v, e);
    case EvPostLock(_) => ReaderKeepsOwned(cb, v, e);
    case EvLeave(_) => ReaderKeepsOwned(cb, v, e);
    case EvEndRead(_) => ReaderKeepsOwned(cb, v, e);
    case _ => OthersKeepOwned(cb, v, e);
  }

  // ---------------------------------------------------------------- all together

  predicate Inv(cb: Callbacks, v: Server) {
    && MutexHeld(v) && SendLocksHeld(v)
    && Fifo(v) && Positions(cb, v) && WakeUpDue(v) && StopSeen(v) && LoopQuiet(v)
    && Parsing(v) && Calling(cb, v) && Answering(cb, v) && Pipes(v)
    && Owned(v)
  }

  /** What the invariant says of one session. */
  lemma InvAt(cb: Callbacks, v: Server, s: Sid)
    requires Inv(cb, v) && s < |v.sessions|
    ensures SessParsed(v.posted, s, v.sessions[s]) && OwnedOne(v, s) && PipeOk(Tlv, v.sessions[s].pipe)
    ensures OfferedFrames(v.sessions[s].pipe.offers) == AnswersTo(cb, Served(v, s))
    ensures v.posted == v.taken + v.queue
  {
    hide SessParsed, OwnedOne, PipeOk, AnswersTo, Served, OfferedFrames;
  }

  lemma InvKept(cb: Callbacks, v: Server, e: Event)
    requires Inv(cb, v) && Enabled(cb, v, e)
    ensures Inv(cb, Step(cb, v, e))
  {
    hide MutexHeld, SendLocksHeld, Fifo, WorkerPosition, ReaderPositions, WakeUpDue, StopSeen, LoopQuiet, Parsing,
         Calling, Answering, Pipes, Owned, Step, Enabled;
    MutexKept(cb, v, e);
    SendLocksKept(cb, v, e);
    FifoKept(cb, v, e);
    WorkerPositionKept(cb, v, e);
    ReaderPositionsKept(cb, v, e);
    WakeUpKept(cb, v, e);
    StopSeenKept(cb, v, e);
    LoopQuietKept(cb, v, e);
    ParsingKept(cb, v, e);
    CallingKept(cb, v, e);
    AnsweringKept(cb, v, e);
    PipesKept(cb, v, e);
    OwnedKept(cb, v, e);
  }

  lemma {:induction false} RunKeepsInv(cb: Callbacks, v: Server, events: seq<Event>, z: Server)
    requires Inv(cb, v) && Run(cb, v, events, z)
    ensures Inv(cb, z)
    decreases |events|
  {
    hide Inv, Enabled, Step;
    if events != [] {
      InvKept(cb, v, events[0]);
      RunKeepsInv(cb, Step(cb, v, events[0]), events[1..], z);
    }
  }

  /** Every state the server can reach satisfies the invariant. */
  lemma ReachableInv(cb: Callbacks, events: seq<Event>, v: Server)
    requires Run(cb, NEW_SERVER, events, v)
    ensures Inv(cb, v)
  {
    NewServerIsFine(cb);
    hide Inv, Run;
    RunKeepsInv(cb, NEW_SERVER, events, v);
  }

  lemma NewServerIsFine(cb: Callbacks)
    ensures Inv(cb, NEW_SERVER)
  {
    hide SessParsed, OwnedOne, PipeOk, OfferedFrames, AnswersTo, Served, Idle, Parse;
  }
}
