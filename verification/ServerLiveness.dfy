/** The server comes to rest: with no new input and no failures every schedule ends, after a bounded
    number of steps, with every message answered. */
module ServerLiveness {
  import opened Codec
  import opened LogicQueues
  import opened SendQueues
  import opened Servers
  import opened ServerInvariants
  import opened ServerTheorems

  /** The server's own steps: no accept, no read completion, no failing operation, no step of going
      down, and no spurious wake-up. */
  predicate Internal(e: Event) {
    match e
    case EvAccept => false
    case EvReadDone(_, _) => false
    case EvReadFailed(_) => false
    case EvWriteFailed(_, _) => false
    case EvLoopEnds => false
    case EvSetStop => false
    case EvNotifyStop => false
    case EvSpurious => false
    case _ => true
  }

  /** A session at rest. */
  predicate SessQuiet(x: Sess) {
    && (x.reader.Reading? || x.reader.NoRead?)
    && x.pipe.landed == 0
    && (x.pipe.queue == [] || x.pipe.failed)
  }

  /** The worker waits for messages and has none, or has not been created or has ended; and all
      sessions are at rest, or the event loop that would go on with them is over. */
  predicate Quiescent(v: Server) {
    && (((v.worker.WAsleep? || v.worker.WNone?) && v.queue == []) || v.worker.WExited?)
    && (v.stop.Running? ==> forall s | 0 <= s < |v.sessions| :: SessQuiet(v.sessions[s]))
  }

  // ---------------------------------------------------------------- progress

  /** Whoever holds the mutex can take a step, or the holder of the send lock it waits for can. */
  lemma MutexHolderProgresses(cb: Callbacks, v: Server) returns (e: Event)
    requires MutexHeld(v) && SendLocksHeld(v) && Positions(cb, v) && LoopQuiet(v) && v.mutex.HeldBy?
    ensures Internal(e) && Enabled(cb, v, e)
  {
    if v.mutex.t.Reader? {
      return EvPush(v.mutex.t.s);
    }
    match v.worker
    case WTest => e := EvWorkerTest;
    case WDoze => e := EvWorkerSleep;
    case WDrain => e := EvWorkerDrainTest;
    case WFront(_) => e := EvWorkerLook;
    case WCall(_) =>
      var s := v.queue[0].sid;
      e := if v.sessions[s].sendLock == Free then EvWorkerSendLock else EvWritePop(s);
    case WInSend(_) => e := EvWorkerSend;
    case WDone(_) => e := EvWorkerPop;
  }

  /** A session that is not at rest can take a step while the mutex is free. */
  lemma SessionProgresses(cb: Callbacks, v: Server, s: Sid) returns (e: Event)
    requires MutexHeld(v) && SendLocksHeld(v) && Positions(cb, v) && Pipes(v) && v.mutex == Free
    requires v.stop.Running? && s < |v.sessions| && !SessQuiet(v.sessions[s])
    ensures Internal(e) && Enabled(cb, v, e)
  {
    var x := v.sessions[s];
    match x.reader {
      case Handling(todo, _) => return if todo == [] then EvEndRead(s) else EvMakeNode(s);
      case Posting(_, _) => return EvPostLock(s);
      case Leaving(_, _, _, _) => return EvLeave(s);
      case _ =>
    }
    assert PipeOk(Tlv, x.pipe);
    if x.pipe.landed > 0 {
      return if x.sendLock == Free then EvWriteLock(s) else EvWritePop(s);
    }
    assert x.pipe.flights != [];
    e := if CanLand(Tlv, x.pipe, 0) then EvLand(s, 0) else EvTransmit(s, 0, 1);
  }

  /** No deadlock and no lost message: unless everything is at rest, the server can take a step of
      its own. */
  lemma Progress(cb: Callbacks, v: Server) returns (e: Event)
    requires Inv(cb, v) && !Quiescent(v)
    ensures Internal(e) && Enabled(cb, v, e)
  {
    hide Fifo, Parsing, Calling, Answering, Owned, PipeOk, CanTransmit, CanLand, Encode;
    if v.mutex.HeldBy? {
      e := MutexHolderProgresses(cb, v);
    } else if v.worker.WStart? || v.worker.WWoken? {
      e := EvWorkerLock;
    } else if v.worker.WAsleep? && v.queue != [] {
      var s :| 0 <= s < |v.sessions| && Owes(v.sessions[s]);
      e := EvLeave(s);
    } else {
      var s :| 0 <= s < |v.sessions| && !SessQuiet(v.sessions[s]);
      e := SessionProgresses(cb, v, s);
    }
  }

  // ---------------------------------------------------------------- work left

  /** The write handler is inside its critical section. */
  predicate WriterIn(x: Sess) {
    x.sendLock.HeldBy? && x.sendLock.t.Writer?
  }

  function PipeWork(x: Sess): nat {
    SendWork(Tlv, x.pipe, WriterIn(x))
  }

  /** Steps the reply to a message can cost. */
  function ReplyWork(cb: Callbacks, f: Frame): nat {
    if f.id in cb then FrameWork(Tlv, cb[f.id](f)) else 0
  }

  function NodesWork(cb: Callbacks, nodes: seq<Node>): nat {
    if nodes == [] then 0 else 8 + ReplyWork(cb, nodes[0].frame) + NodesWork(cb, nodes[1..])
  }

  function TodoWork(cb: Callbacks, fs: seq<Frame>): nat {
    if fs == [] then 0 else 22 + ReplyWork(cb, fs[0]) + TodoWork(cb, fs[1..])
  }

  function ReaderWork(cb: Callbacks, r: ReaderPc): nat {
    TodoWork(cb, Todo(r)) +
    match r
    case Reading => 0
    case NoRead => 0
    case Handling(_, _) => 3
    case Posting(_, _) => 2
    case Pushing(_, _) => 1
    case Leaving(_, _, _, _) => 14
  }

  function SessWork(cb: Callbacks, x: Sess): nat {
    ReaderWork(cb, x.reader) + PipeWork(x)
  }

  function SessionsWork(cb: Callbacks, ss: seq<Sess>): nat {
    if ss == [] then 0 else SessWork(cb, ss[0]) + SessionsWork(cb, ss[1..])
  }

  /** Steps for the messages in the logic queue; behind a callback the reply has moved on. */
  function LogicWork(cb: Callbacks, v: Server): nat {
    NodesWork(cb, if v.worker.WDone? && v.queue != [] then v.queue[1..] else v.queue)
    + if v.worker.WDone? && v.queue != [] then 8 else 0
  }

  function WorkerWork(w: WorkerPc): nat {
    match w
    case WNone => 8
    case WAsleep => 0
    case WExited => 0
    case WDoze => 1
    case WDone(_) => 2
    case WInSend(_) => 3
    case WCall(_) => 4
    case WFront(_) => 5
    case WDrain => 6
    case WTest => 7
    case WStart => 8
    case WWoken => 8
  }

  function Work(cb: Callbacks, v: Server): nat {
    SessionsWork(cb, v.sessions) + LogicWork(cb, v) + WorkerWork(v.worker)
  }

  lemma {:induction false} SessionsWorkUpdate(cb: Callbacks, ss: seq<Sess>, s: Sid, x: Sess)
    requires s < |ss|
    ensures SessionsWork(cb, ss[s := x]) + SessWork(cb, ss[s]) == SessionsWork(cb, ss) + SessWork(cb, x)
  {
    hide SessWork;
    if s == 0 {
      assert ss[s := x][1..] == ss[1..];
    } else {
      SessionsWorkUpdate(cb, ss[1..], s - 1, x);
      assert ss[s := x][1..] == ss[1..][s - 1 := x];
    }
  }

  lemma {:induction false} NodesWorkOne(cb: Callbacks, nodes: seq<Node>, n: Node)
    ensures NodesWork(cb, nodes + [n]) == NodesWork(cb, nodes) + 8 + ReplyWork(cb, n.frame)
  {
    hide ReplyWork;
    if nodes == [] {
      assert (nodes + [n])[1..] == [];
    } else {
      NodesWorkOne(cb, nodes[1..], n);
      assert (nodes + [n])[1..] == nodes[1..] + [n];
    }
  }

  // ---------------------------------------------------------------- every step uses up work

  lemma ReaderStepWorks(cb: Callbacks, v: Server, e: Event)
    requires MutexHeld(v) && Positions(cb, v) && Enabled(cb, v, e)
    requires e.EvMakeNode? || e.EvPostLock? || e.EvLeave? || e.EvEndRead?
    ensures Work(cb, Step(cb, v, e)) < Work(cb, v)
  {
    hide SendWork, FrameWork, TodoWork, NodesWork, SessionsWork, Parse, Encode;
    var x := Step(cb, v, e).sessions[e.s];
    assert PipeWork(x) == PipeWork(v.sessions[e.s]);
    SessionsWorkUpdate(cb, v.sessions, e.s, x);
  }

  /** A step that changes one session: what counts is that session and the worker's side. */
  lemma OneSessionWorks(cb: Callbacks, v: Server, z: Server, s: Sid)
    requires s < |v.sessions| && |z.sessions| == |v.sessions|
    requires z.sessions == v.sessions[s := z.sessions[s]]
    requires SessWork(cb, z.sessions[s]) + LogicWork(cb, z) + WorkerWork(z.worker)
           < SessWork(cb, v.sessions[s]) + LogicWork(cb, v) + WorkerWork(v.worker)
    ensures Work(cb, z) < Work(cb, v)
  {
    hide SessWork, LogicWork, WorkerWork, SessionsWork;
    SessionsWorkUpdate(cb, v.sessions, s, z.sessions[s]);
  }

  lemma PushWorks(cb: Callbacks, v: Server, s: Sid)
    requires MutexHeld(v) && Positions(cb, v) && Enabled(cb, v, EvPush(s))
    ensures Work(cb, Push(v, s)) < Work(cb, v)
  {
    var z := Push(v, s);
    assert !v.worker.WDone?;
    hide FrameWork, NodesWork, SessionsWork, Parse, Encode, ReplyWork, SendWork;
    NodesWorkOne(cb, v.queue, Task(s, v.sessions[s].reader.todo[0]));
    assert PipeWork(z.sessions[s]) == PipeWork(v.sessions[s]) by {
      SamePipeSameWork(v.sessions[s], z.sessions[s]);
    }
    OneSessionWorks(cb, v, z, s);
  }

  lemma SamePipeSameWork(x: Sess, y: Sess)
    requires x.pipe == y.pipe && (WriterIn(x) <==> WriterIn(y))
    ensures PipeWork(x) == PipeWork(y)
  {}

  lemma PopWorks(cb: Callbacks, v: Server, drain: bool)
    requires HasFront(v) && (v.worker.WDone? || v.worker.WFront?)
    ensures Work(cb, PopFront(v, drain)) < Work(cb, v)
  {
    hide SendWork, FrameWork, TodoWork, SessionsWork, Parse, Encode, ReplyWork;
    var s := v.queue[0].sid;
    var x := PopFront(v, drain).sessions[s];
    SessionsWorkUpdate(cb, v.sessions, s, x);
  }

  lemma PipeAt(v: Server, s: Sid)
    requires Pipes(v) && s < |v.sessions|
    ensures PipeOk(Tlv, v.sessions[s].pipe)
  {
    hide PipeOk;
  }

  lemma TheWorkerIsIn(v: Server)
    requires SendLocksHeld(v) && v.worker.WInSend? && HasFront(v)
    ensures v.sessions[v.queue[0].sid].sendLock == HeldBy(Worker)
  {}

  lemma SendWorks(cb: Callbacks, v: Server)
    requires Pipes(v) && SendLocksHeld(v) && Enabled(cb, v, EvWorkerSend)
    ensures Work(cb, WorkerSend(cb, v)) < Work(cb, v)
  {
    hide Pipes, SendLocksHeld, SendWork, FrameWork, TodoWork, Work, Parse, Encode, Offered, PipeOk;
    var Task(s, f) := v.queue[0];
    var z := WorkerSend(cb, v);
    var x, y := v.sessions[s], z.sessions[s];
    PipeAt(v, s);
    TheWorkerIsIn(v);
    OfferWorks(Tlv, x.pipe, cb[f.id](f), WriterIn(x));
    OneSessionWorks(cb, v, z, s);
  }

  lemma WriteStepWorks(cb: Callbacks, v: Server, e: Event)
    requires Pipes(v) && SendLocksHeld(v) && Enabled(cb, v, e)
    requires e.EvTransmit? || e.EvLand? || e.EvWritePop? || e.EvWriteLock?
    ensures Work(cb, Step(cb, v, e)) < Work(cb, v)
  {
    hide Pipes, SendLocksHeld, SendWork, FrameWork, TodoWork, Work, NodesWork, Parse, Encode, PipeStep, PipeOk,
         CanTransmit, CanLand, ReplyWork;
    var z := Step(cb, v, e);
    var x, y := v.sessions[e.s], z.sessions[e.s];
    PipeAt(v, e.s);
    match e {
      case EvTransmit(_, i, k) => PipeStepWorks(Tlv, x.pipe, Transmitting(i, k), WriterIn(x), WriterIn(y));
      case EvLand(_, i) =>
        LandIsTaken(v, e.s, i);
        PipeStepWorks(Tlv, x.pipe, Landing(i), WriterIn(x), WriterIn(y));
      case EvWritePop(_) => PipeStepWorks(Tlv, x.pipe, Popping, WriterIn(x), WriterIn(y));
      case EvWriteLock(_) => LockWorks(x, y);
    }
    assert LogicWork(cb, z) == LogicWork(cb, v) && PipeWork(y) < PipeWork(x);
    OneSessionWorks(cb, v, z, e.s);
  }

  /** As long as an operation is on its way, no write handler is running. */
  lemma LandIsTaken(v: Server, s: Sid, i: nat)
    requires Pipes(v) && SendLocksHeld(v) && s < |v.sessions| && CanLand(Tlv, v.sessions[s].pipe, i)
    ensures !WriterIn(v.sessions[s])
  {
    assert OneAtATime(v.sessions[s].pipe);
  }

  lemma LockWorks(x: Sess, y: Sess)
    requires PipeOk(Tlv, x.pipe) && y.pipe == x.pipe && x.pipe.landed > 0 && !WriterIn(x) && WriterIn(y)
    ensures PipeWork(y) < PipeWork(x)
  {}

  lemma WorkerStepWorks(cb: Callbacks, v: Server, e: Event)
    requires Enabled(cb, v, e)
    requires e.EvWorkerLock? || e.EvWorkerTest? || e.EvWorkerSleep? || e.EvWorkerDrainTest?
             || e.EvWorkerSendLock? || (e.EvWorkerLook? && v.queue[0].frame.id in cb)
    requires SendLocksHeld(v)
    ensures Work(cb, Step(cb, v, e)) < Work(cb, v)
  {
    hide SendWork, FrameWork, TodoWork, SessionsWork, NodesWork, Parse, Encode;
    if e.EvWorkerSendLock? || e.EvWorkerLook? {
      var s := v.queue[0].sid;
      SessionsWorkUpdate(cb, v.sessions, s, Step(cb, v, e).sessions[s]);
    }
  }

  lemma StepWorks(cb: Callbacks, v: Server, e: Event)
    requires Inv(cb, v) && Enabled(cb, v, e) && Internal(e)
    ensures Work(cb, Step(cb, v, e)) < Work(cb, v)
  {
    hide Work, MutexHeld, SendLocksHeld, Fifo, Positions, WakeUpDue, StopSeen, Parsing, Calling, Answering, Pipes,
         Owned, PipeStep, Parse, CanTransmit, CanLand;
    match e
    case EvMakeNode(_) => ReaderStepWorks(cb, v, e);
    case EvPostLock(_) => ReaderStepWorks(cb, v, e);
    case EvLeave(_) => ReaderStepWorks(cb, v, e);
    case EvEndRead(_) => ReaderStepWorks(cb, v, e);
    case EvPush(s) => PushWorks(cb, v, s);
    case EvWorkerPop => PopWorks(cb, v, v.worker.drain);
    case EvWorkerSend => SendWorks(cb, v);
    case EvTransmit(_, _, _) => WriteStepWorks(cb, v, e);
    case EvLand(_, _) => WriteStepWorks(cb, v, e);
    case EvWritePop(_) => WriteStepWorks(cb, v, e);
    case EvWriteLock(_) => WriteStepWorks(cb, v, e);
    case EvWorkerLook =>
      if v.queue[0].frame.id in cb {
        WorkerStepWorks(cb, v, e);
      } else {
        PopWorks(cb, v, v.worker.drain);
      }
    case _ => WorkerStepWorks(cb, v, e);
  }

  // ---------------------------------------------------------------- rest is reached

  /** The server's own steps cannot go on for longer than the work left, in any order. */
  lemma {:induction false} OwnStepsEnd(cb: Callbacks, v: Server, events: seq<Event>, z: Server)
    requires Inv(cb, v) && Run(cb, v, events, z) && forall e <- events :: Internal(e)
    ensures |events| + Work(cb, z) <= Work(cb, v)
    decreases |events|
  {
    hide Inv, Enabled, Step, Work, Internal;
    if events != [] {
      assert events[0] in events;
      StepWorks(cb, v, events[0]);
      InvKept(cb, v, events[0]);
      OwnStepsEnd(cb, Step(cb, v, events[0]), events[1..], z);
    }
  }

  lemma {:induction false} RunsCompose(cb: Callbacks, a: Server, first: seq<Event>, b: Server,
                                       second: seq<Event>, c: Server)
    requires Run(cb, a, first, b) && Run(cb, b, second, c)
    ensures Run(cb, a, first + second, c)
    decreases |first|
  {
    hide Enabled, Step;
    if first == [] {
      assert first + second == second;
    } else {
      RunsCompose(cb, Step(cb, a, first[0]), first[1..], b, second, c);
      assert (first + second)[1..] == first[1..] + second;
    }
  }

  /** Whatever has happened so far, if from then on the server is left to itself, every schedule of
      its own steps ends after at most `Work` steps.  Where it ends, everything received has been
      popped, every registered message called back once, and every reply handed to Send; and as long
      as the event loop runs, a session none of whose sends was refused or failed has written exactly
      the encodings of these replies. */
  lemma EveryMessageIsAnswered(cb: Callbacks, before: seq<Event>, v: Server, own: seq<Event>, z: Server)
    requires Run(cb, NEW_SERVER, before, v) && Run(cb, v, own, z)
    requires forall e <- own :: Internal(e)
    ensures |own| <= Work(cb, v)
    ensures Quiescent(z) <==> forall e | Internal(e) :: !Enabled(cb, z, e)
    ensures Quiescent(z) ==> AllHandled(cb, z)
    ensures Quiescent(z) && z.stop.Running? ==>
              forall s | 0 <= s < |z.sessions| ::
                var x := z.sessions[s];
                RefusedCount(x.pipe.offers) == 0 && !x.pipe.failed ==>
                  x.pipe.wire == EncodeAll(Tlv, AnswersTo(cb, Parse(Tlv, x.recv).frames))
  {
    ReachableInv(cb, before, v);
    OwnStepsEnd(cb, v, own, z);
    RunsCompose(cb, NEW_SERVER, before, v, own, z);
    ReachableInv(cb, before + own, z);
    hide Inv, Run, Work, EncodeAll, AnswersTo, Of, Parse, RefusedCount, Internal, Enabled, AllHandled;
    if Quiescent(z) {
      QuietMeansStuck(cb, z);
      RestMeansHandled(cb, before + own, z);
      if z.stop.Running? {
        QuietMeansAnswered(cb, before + own, z);
      }
    } else {
      var e := Progress(cb, z);
    }
  }

  lemma QuietMeansAnswered(cb: Callbacks, events: seq<Event>, v: Server)
    requires Run(cb, NEW_SERVER, events, v) && Quiescent(v) && v.stop.Running?
    ensures forall s | 0 <= s < |v.sessions| ::
              var x := v.sessions[s];
              RefusedCount(x.pipe.offers) == 0 && !x.pipe.failed ==>
                x.pipe.wire == EncodeAll(Tlv, AnswersTo(cb, Parse(Tlv, x.recv).frames))
  {
    ReachableInv(cb, events, v);
    assert v.queue == [];
    hide Inv, Run, EncodeAll, AnswersTo, Parse, RefusedCount;
    forall s | 0 <= s < |v.sessions| && RefusedCount(v.sessions[s].pipe.offers) == 0 && !v.sessions[s].pipe.failed
      ensures v.sessions[s].pipe.wire == EncodeAll(Tlv, AnswersTo(cb, Parse(Tlv, v.sessions[s].recv).frames))
    {
      assert SessQuiet(v.sessions[s]);
      EndToEnd(cb, events, v, s);
    }
  }

  /** Everything received has been posted and popped, every registered message called back once and
      in order, and every reply handed to Send. */
  predicate AllHandled(cb: Callbacks, v: Server) {
    && v.taken == v.posted
    && v.calls == Registered(cb.Keys, v.posted)
    && (forall s | 0 <= s < |v.sessions| :: SessHandled(cb, v, s))
  }

  predicate SessHandled(cb: Callbacks, v: Server, s: Sid)
    requires s < |v.sessions|
  {
    var received := Parse(Tlv, v.sessions[s].recv).frames;
    && Of(s, v.posted) == received
    && OfferedFrames(v.sessions[s].pipe.offers) == AnswersTo(cb, received)
  }

  /** At rest everything has been handled; and so it has in any state in which the worker has ended. */
  lemma RestMeansHandled(cb: Callbacks, events: seq<Event>, v: Server)
    requires Run(cb, NEW_SERVER, events, v) && (Quiescent(v) || v.worker.WExited?)
    ensures AllHandled(cb, v)
  {
    hide Inv, Run, Quiescent, AnswersTo, Of, Parse, PipeOk, OwnedOne, OfferedFrames, Registered;
    ReachableInv(cb, events, v);
    CallbacksInOrder(cb, events, v);
    NothingIsOnItsWay(cb, v);
    assert v.taken + [] == v.taken;
    forall s | 0 <= s < |v.sessions| ensures SessHandled(cb, v, s) {
      InvAt(cb, v, s);
      assert Of(s, v.posted) + [] == Of(s, v.posted);
    }
  }

  lemma NothingIsOnItsWay(cb: Callbacks, v: Server)
    requires Inv(cb, v) && (Quiescent(v) || v.worker.WExited?)
    ensures v.queue == [] && (v.worker.WNone? || v.worker.WAsleep? || v.worker.WExited?)
    ensures forall s | 0 <= s < |v.sessions| :: v.sessions[s].reader.Reading? || v.sessions[s].reader.NoRead?
  {
    hide MutexHeld, SendLocksHeld, Fifo, WakeUpDue, StopSeen, Parsing, Calling, Answering, Pipes, Owned;
    if v.stop.Running? {
      assert forall s | 0 <= s < |v.sessions| :: SessQuiet(v.sessions[s]);
    } else {
      assert forall s | 0 <= s < |v.sessions| :: Idle(v.sessions[s]);
    }
  }

  lemma QuietMeansStuck(cb: Callbacks, v: Server)
    requires Inv(cb, v) && Quiescent(v)
    ensures forall e | Internal(e) :: !Enabled(cb, v, e)
  {
    hide Inv, Parse, PipeOk, SessParsed, OwnedOne, AnswersTo, OfferedFrames, SessQuiet;
    forall s | 0 <= s < |v.sessions| && v.stop.Running?
      ensures v.sessions[s].pipe.flights == [] && v.sessions[s].pipe.landed == 0
      ensures v.sessions[s].reader.Reading? || v.sessions[s].reader.NoRead?
    {
      InvAt(cb, v, s);
      QuietPipe(v.sessions[s]);
    }
  }

  lemma QuietPipe(x: Sess)
    requires PipeOk(Tlv, x.pipe) && SessQuiet(x)
    ensures x.pipe.flights == [] && x.pipe.landed == 0 && (x.reader.Reading? || x.reader.NoRead?)
  {}

  // ---------------------------------------------------------------- schedules

  /** A schedule of the server's own steps, up to rest. */
  ghost predicate OwnRun(cb: Callbacks, v: Server, own: seq<Event>, z: Server) {
    Run(cb, v, own, z) && (forall e <- own :: Internal(e)) && Quiescent(z)
  }

  lemma RunMore(cb: Callbacks, v: Server, e: Event, events: seq<Event>, z: Server)
    requires Enabled(cb, v, e) && Run(cb, Step(cb, v, e), events, z)
    ensures Run(cb, v, [e] + events, z)
  {
    hide Enabled, Step;
    assert ([e] + events)[0] == e && ([e] + events)[1..] == events;
  }

  lemma RunOne(cb: Callbacks, v: Server, events: seq<Event>, y: Server, e: Event)
    requires Run(cb, v, events, y) && Enabled(cb, y, e)
    ensures Run(cb, v, events + [e], Step(cb, y, e))
  {
    hide Enabled, Step;
    RunMore(cb, y, e, [], Step(cb, y, e));
    assert [e] + [] == [e];
    RunsCompose(cb, v, events, y, [e], Step(cb, y, e));
  }

  /** Every state can be run to rest. */
  lemma Complete(cb: Callbacks, v: Server) returns (own: seq<Event>, z: Server)
    requires Inv(cb, v)
    ensures OwnRun(cb, v, own, z)
    decreases Work(cb, v)
  {
    hide Inv, Work, Enabled, Step, Internal, Quiescent;
    if Quiescent(v) {
      own, z := [], v;
    } else {
      var e := Progress(cb, v);
      StepWorks(cb, v, e);
      InvKept(cb, v, e);
      own, z := Complete(cb, Step(cb, v, e));
      RunMore(cb, v, e, own, z);
      own := [e] + own;
    }
  }
}
