/** What becomes of a session in the logic server: that it goes on reading, what it has received, and
    when it is out of the map, all in terms of the events of the run. */
module ServerSessions {
  import opened Codec
  import opened LogicQueues
  import opened SendQueues
  import opened Servers
  import opened ServerInvariants
  import opened ServerTheorems
  import opened ServerLiveness

  // ---------------------------------------------------------------- what a run has seen

  /** The bytes that reads of the session delivered. */
  function ReadBy(s: Sid, events: seq<Event>): seq<Byte> {
    if events == [] then [] else ChunkOf(s, events[0]) + ReadBy(s, events[1..])
  }

  function ChunkOf(s: Sid, e: Event): seq<Byte> {
    if e.EvReadDone? && e.s == s then e.chunk else []
  }

  predicate WriteFails(s: Sid, e: Event) {
    e.EvWriteFailed? && e.s == s
  }

  function Recv(v: Server, s: Sid): seq<Byte> {
    if s < |v.sessions| then v.sessions[s].recv else []
  }

  predicate DoneReading(v: Server, s: Sid) {
    s < |v.sessions| && v.sessions[s].reader.NoRead?
  }

  predicate HasFailed(v: Server, s: Sid) {
    s < |v.sessions| && v.sessions[s].pipe.failed
  }

  /** The read handler is running. */
  predicate Handles(r: ReaderPc) {
    !r.Reading? && !r.NoRead?
  }

  predicate Refuses(v: Server, s: Sid) {
    Parse(Tlv, Recv(v, s)).stop == Refused
  }

  /** One step: what it adds to the stream. */
  lemma RecvStep(cb: Callbacks, v: Server, e: Event, s: Sid)
    requires Enabled(cb, v, e)
    ensures |Step(cb, v, e).sessions| == |v.sessions| + B(e.EvAccept?)
    ensures Recv(Step(cb, v, e), s) == Recv(v, s) + ChunkOf(s, e)
  {
    hide PipeStep, Offered, Parse, CanTransmit, CanLand, PipeEnabled;
    assert Recv(v, s) + [] == Recv(v, s);
  }

  lemma {:induction false} RecvHistory(cb: Callbacks, v: Server, events: seq<Event>, z: Server, s: Sid)
    requires Run(cb, v, events, z)
    ensures Recv(z, s) == Recv(v, s) + ReadBy(s, events)
    decreases |events|
  {
    hide Step, Enabled, Recv, ChunkOf;
    if events == [] {
      assert Recv(v, s) + [] == Recv(v, s);
    } else {
      RecvStep(cb, v, events[0], s);
      RecvHistory(cb, Step(cb, v, events[0]), events[1..], z, s);
      Associative(Recv(v, s), ChunkOf(s, events[0]), ReadBy(s, events[1..]));
    }
  }

  /** A pipeline fails only in its session's failing write. */
  lemma FailStep(cb: Callbacks, v: Server, e: Event, s: Sid)
    requires Enabled(cb, v, e)
    ensures HasFailed(Step(cb, v, e), s) <==> HasFailed(v, s) || WriteFails(s, e)
  {
    match e
    case EvTransmit(t, i, k) => PipeStepHistory(Tlv, v.sessions[t].pipe, Transmitting(i, k));
    case EvLand(t, i) => PipeStepHistory(Tlv, v.sessions[t].pipe, Landing(i));
    case EvWritePop(t) => PipeStepHistory(Tlv, v.sessions[t].pipe, Popping);
    case EvWorkerSend =>
    case _ => OthersFailNothing(cb, v, e, s);
    hide PipeStep, Parse, Encode, OfferedFrames;
  }

  lemma OthersFailNothing(cb: Callbacks, v: Server, e: Event, s: Sid)
    requires Enabled(cb, v, e) && !e.EvTransmit? && !e.EvLand? && !e.EvWritePop? && !e.EvWorkerSend?
    ensures HasFailed(Step(cb, v, e), s) <==> HasFailed(v, s) || WriteFails(s, e)
  {
    hide PipeStep, Offered, Parse, CanTransmit, CanLand, PipeEnabled;
  }

  lemma {:induction false} FailHistory(cb: Callbacks, v: Server, events: seq<Event>, z: Server, s: Sid)
    requires Run(cb, v, events, z)
    ensures HasFailed(z, s) <==> HasFailed(v, s) || exists e <- events :: WriteFails(s, e)
    decreases |events|
  {
    hide Step, Enabled, HasFailed, WriteFails;
    if events != [] {
      FailStep(cb, v, events[0], s);
      FailHistory(cb, Step(cb, v, events[0]), events[1..], z, s);
      assert events == [events[0]] + events[1..];
    }
  }

  /** Reading ends with a failed read, or with the handler that met a refused header. */
  lemma ReaderStep(cb: Callbacks, v: Server, e: Event, s: Sid)
    requires Enabled(cb, v, e)
    ensures DoneReading(Step(cb, v, e), s) ==>
              || DoneReading(v, s) || e == EvReadFailed(s)
              || (s < |v.sessions| && v.sessions[s].reader.Handling? && v.sessions[s].reader.refused)
    ensures DoneReading(v, s) || e == EvReadFailed(s) ==> DoneReading(Step(cb, v, e), s) && ChunkOf(s, e) == []
  {
    hide PipeStep, Offered, Parse, CanTransmit, CanLand, PipeEnabled;
  }

  lemma ReaderHistory(cb: Callbacks, v: Server, e: Event, s: Sid)
    requires Enabled(cb, v, e) && Parsing(v)
    ensures var z := Step(cb, v, e);
            && (DoneReading(z, s) ==> DoneReading(v, s) || e == EvReadFailed(s) || Refuses(v, s))
            && (DoneReading(v, s) || e == EvReadFailed(s) ==> DoneReading(z, s) && ChunkOf(s, e) == [])
  {
    hide Step, Enabled, Parse;
    ReaderStep(cb, v, e, s);
    if s < |v.sessions| {
      assert SessParsed(v.posted, s, v.sessions[s]);
    }
  }

  lemma InvMeansParsing(cb: Callbacks, v: Server)
    requires Inv(cb, v)
    ensures Parsing(v)
  {
    hide Parsing;
  }

  lemma {:induction false} ReaderRun(cb: Callbacks, v: Server, events: seq<Event>, z: Server, s: Sid)
    requires Inv(cb, v) && Run(cb, v, events, z)
    ensures DoneReading(z, s) ==> DoneReading(v, s) || EvReadFailed(s) in events || Refuses(z, s)
    ensures DoneReading(v, s) || EvReadFailed(s) in events ==> DoneReading(z, s)
    decreases |events|
  {
    hide Inv, Step, Enabled, Recv, DoneReading, Parse;
    if events != [] {
      var e, y := events[0], Step(cb, v, events[0]);
      InvMeansParsing(cb, v);
      ReaderHistory(cb, v, e, s);
      InvKept(cb, v, e);
      ReaderRun(cb, y, events[1..], z, s);
      assert events == [e] + events[1..];
      if Refuses(v, s) {
        RecvHistory(cb, v, events, z, s);
        RefusalStays(Recv(v, s), ReadBy(s, events));
      }
    }
  }

  lemma RefusalStays(a: seq<Byte>, b: seq<Byte>)
    requires Parse(Tlv, a).stop == Refused
    ensures Parse(Tlv, a + b).stop == Refused
  {
    ParseResumes(Tlv, a, b);
  }

  /** A session has received exactly what its reads delivered.  It goes on reading unless a read of it
      failed or a header was refused, and does not after either. */
  lemma ReadingGoesOn(cb: Callbacks, events: seq<Event>, v: Server, s: Sid)
    requires Run(cb, NEW_SERVER, events, v) && s < |v.sessions|
    ensures v.sessions[s].recv == ReadBy(s, events)
    ensures v.sessions[s].reader.NoRead? ==>
              EvReadFailed(s) in events || Parse(Tlv, v.sessions[s].recv).stop == Refused
    ensures EvReadFailed(s) in events ==> v.sessions[s].reader.NoRead?
    ensures v.sessions[s].reader.Reading? ==> Parse(Tlv, v.sessions[s].recv).stop == NeedMore
  {
    hide Inv, Run, PipeOk, OwnedOne, AnswersTo, OfferedFrames, Of, Parse;
    NewServerIsFine(cb);
    RecvHistory(cb, NEW_SERVER, events, v, s);
    ReaderRun(cb, NEW_SERVER, events, v, s);
    assert [] + ReadBy(s, events) == ReadBy(s, events);
    ReachableInv(cb, events, v);
    InvAt(cb, v, s);
  }

  /** A session is in the map until a read of it fails, a write of it fails, or a header is refused,
      and never after any of these (after a refused header, as soon as its handler has ended). */
  lemma MappedExactlySoLong(cb: Callbacks, events: seq<Event>, v: Server, s: Sid)
    requires Run(cb, NEW_SERVER, events, v) && s < |v.sessions|
    ensures v.sessions[s].pipe.failed <==> exists e <- events :: WriteFails(s, e)
    ensures !v.sessions[s].mapped ==>
              || EvReadFailed(s) in events || (exists e <- events :: WriteFails(s, e))
              || Parse(Tlv, v.sessions[s].recv).stop == Refused
    ensures v.sessions[s].mapped ==>
              && EvReadFailed(s) !in events && (forall e <- events :: !WriteFails(s, e))
              && (Parse(Tlv, v.sessions[s].recv).stop == Refused ==> Handles(v.sessions[s].reader))
  {
    FailHistory(cb, NEW_SERVER, events, v, s);
    ReadingGoesOn(cb, events, v, s);
    hide Inv, Run, WriteFails, Parse;
    SessionLifetime(cb, events, v, s);
  }

  // ---------------------------------------------------------------- own steps

  lemma OwnStep(cb: Callbacks, v: Server, e: Event)
    requires Enabled(cb, v, e) && Internal(e)
    ensures Step(cb, v, e).stop == v.stop && |Step(cb, v, e).sessions| == |v.sessions|
  {
    hide PipeStep, Offered, Parse, CanTransmit, CanLand, PipeEnabled;
  }

  lemma {:induction false} OwnSteps(cb: Callbacks, v: Server, own: seq<Event>, z: Server, s: Sid)
    requires Run(cb, v, own, z) && forall e <- own :: Internal(e)
    ensures z.stop == v.stop && |z.sessions| == |v.sessions| && Recv(z, s) == Recv(v, s)
    decreases |own|
  {
    hide Step, Enabled, Recv;
    if own != [] {
      assert own[0] in own;
      OwnStep(cb, v, own[0]);
      RecvStep(cb, v, own[0], s);
      assert ChunkOf(s, own[0]) == [] && Recv(v, s) + [] == Recv(v, s);
      OwnSteps(cb, Step(cb, v, own[0]), own[1..], z, s);
    }
  }

  /** Left to itself while the event loop runs, a session that was reading and has met no refused
      header comes to rest with its next read armed; and no other session does. */
  lemma AtRestItReadsOn(cb: Callbacks, before: seq<Event>, v: Server, own: seq<Event>, z: Server, s: Sid)
    requires Run(cb, NEW_SERVER, before, v) && OwnRun(cb, v, own, z) && v.stop.Running? && s < |v.sessions|
    ensures s < |z.sessions| && z.sessions[s].recv == v.sessions[s].recv
    ensures z.sessions[s].reader.Reading? <==>
              !v.sessions[s].reader.NoRead? && Parse(Tlv, v.sessions[s].recv).stop != Refused
  {
    ReachableInv(cb, before, v);
    OwnSteps(cb, v, own, z, s);
    assert SessQuiet(z.sessions[s]);
    hide Inv, Run, Parse, Quiescent;
    ReaderRun(cb, v, own, z, s);
    assert EvReadFailed(s) !in own;
    RunsCompose(cb, NEW_SERVER, before, v, own, z);
    ReadingGoesOn(cb, before + own, z, s);
  }

  // ---------------------------------------------------------------- one chunk is never refused

  /** The messages of a session that are anywhere between its parser and the end of its send queue. */
  function Waiting(v: Server, s: Sid): int
    requires s < |v.sessions|
  {
    var x := v.sessions[s];
    |x.pipe.queue| + |Todo(x.reader)| + QueuedOf(s, v.queue) - B(JustAnswered(v, s))
  }

  lemma SendWaits(cb: Callbacks, v: Server, s: Sid)
    requires s < |v.sessions| && Enabled(cb, v, EvWorkerSend)
    ensures Waiting(WorkerSend(cb, v), s) <= Waiting(v, s)
    ensures Waiting(v, s) <= MAX_SENDQUE_SIZE + 1 ==>
              RefusedCount(WorkerSend(cb, v).sessions[s].pipe.offers) == RefusedCount(v.sessions[s].pipe.offers)
  {
    var Task(t, f) := v.queue[0];
    PipeOfferStep(Tlv, v.sessions[t].pipe, Offering(cb[f.id](f)));
    hide Offered, RefusedCount;
  }

  lemma SocketWaits(cb: Callbacks, v: Server, e: Event, s: Sid)
    requires s < |v.sessions| && Enabled(cb, v, e)
    requires e.EvTransmit? || e.EvLand? || e.EvWritePop? || e.EvWriteFailed?
    ensures Waiting(Step(cb, v, e), s) <= Waiting(v, s)
    ensures RefusedCount(Step(cb, v, e).sessions[s].pipe.offers) == RefusedCount(v.sessions[s].pipe.offers)
  {
    match e
    case EvTransmit(t, i, k) => PipeOfferStep(Tlv, v.sessions[t].pipe, Transmitting(i, k));
    case EvLand(t, i) => PipeOfferStep(Tlv, v.sessions[t].pipe, Landing(i));
    case EvWritePop(t) => PipeOfferStep(Tlv, v.sessions[t].pipe, Popping);
    case EvWriteFailed(t, i) => PipeOfferStep(Tlv, v.sessions[t].pipe, Failing(i));
    hide PipeStep, RefusedCount, QueuedOf, Encode;
  }

  lemma PushWaits(cb: Callbacks, v: Server, t: Sid, s: Sid)
    requires s < |v.sessions| && MutexHeld(v) && Enabled(cb, v, EvPush(t))
    ensures Waiting(Push(v, t), s) <= Waiting(v, s)
    ensures Push(v, t).sessions[s].pipe == v.sessions[s].pipe
  {
    QueuedOfOne(s, v.queue, Task(t, v.sessions[t].reader.todo[0]));
    hide QueuedOf, Parse;
  }

  lemma OthersWaitLonger(cb: Callbacks, v: Server, e: Event, s: Sid)
    requires s < |v.sessions| && Enabled(cb, v, e) && !(e.EvReadDone? && e.s == s)
    requires !e.EvTransmit? && !e.EvLand? && !e.EvWritePop? && !e.EvWriteFailed? && !e.EvWorkerSend? && !e.EvPush?
    ensures s < |Step(cb, v, e).sessions|
    ensures Waiting(Step(cb, v, e), s) <= Waiting(v, s)
    ensures Step(cb, v, e).sessions[s].pipe == v.sessions[s].pipe
  {
    hide PipeStep, Offered, Parse, CanTransmit, CanLand, PipeEnabled;
  }

  /** Nothing but a read of the session adds to what is waiting; and nothing is refused as long as no
      more is waiting than the send queue holds. */
  lemma WaitingStep(cb: Callbacks, v: Server, e: Event, s: Sid)
    requires s < |v.sessions| && MutexHeld(v) && Enabled(cb, v, e) && !(e.EvReadDone? && e.s == s)
    ensures s < |Step(cb, v, e).sessions| && Waiting(Step(cb, v, e), s) <= Waiting(v, s)
    ensures Waiting(v, s) <= MAX_SENDQUE_SIZE + 1 ==>
              RefusedCount(Step(cb, v, e).sessions[s].pipe.offers) == RefusedCount(v.sessions[s].pipe.offers)
  {
    hide Waiting, RefusedCount, MutexHeld;
    match e
    case EvWorkerSend => SendWaits(cb, v, s);
    case EvTransmit(_, _, _) => SocketWaits(cb, v, e, s);
    case EvLand(_, _) => SocketWaits(cb, v, e, s);
    case EvWritePop(_) => SocketWaits(cb, v, e, s);
    case EvWriteFailed(_, _) => SocketWaits(cb, v, e, s);
    case EvPush(t) => PushWaits(cb, v, t, s);
    case _ => OthersWaitLonger(cb, v, e, s);
  }

  lemma {:induction false} NothingIsRefused(cb: Callbacks, v: Server, events: seq<Event>, z: Server, s: Sid)
    requires Inv(cb, v) && Run(cb, v, events, z) && s < |v.sessions| && Waiting(v, s) <= MAX_SENDQUE_SIZE + 1
    requires forall e <- events :: !(e.EvReadDone? && e.s == s)
    ensures s < |z.sessions|
    ensures RefusedCount(z.sessions[s].pipe.offers) == RefusedCount(v.sessions[s].pipe.offers)
    decreases |events|
  {
    hide SendLocksHeld, Fifo, Positions, WakeUpDue, StopSeen, LoopQuiet, Parsing, Calling, Answering, Pipes, Owned,
         MutexHeld, Step, Enabled, Waiting, RefusedCount;
    if events != [] {
      assert events[0] in events;
      WaitingStep(cb, v, events[0], s);
      InvKept(cb, v, events[0]);
      NothingIsRefused(cb, Step(cb, v, events[0]), events[1..], z, s);
    }
  }

  lemma {:induction false} FramesTakeFourBytes(fs: seq<Frame>)
    ensures |EncodeAll(Tlv, fs)| >= 4 * |fs|
  {
    if fs != [] {
      FramesTakeFourBytes(fs[1..]);
    }
  }

  /** What is kept of a stream and a chunk behind it hold at most 1024 messages. */
  lemma ChunkIsSmall(recv: seq<Byte>, chunk: seq<Byte>)
    requires Parse(Tlv, recv).stop == NeedMore && |chunk| <= MAX_LENGTH
    ensures |Parse(Tlv, Parse(Tlv, recv).rest + chunk).frames| <= MAX_SENDQUE_SIZE
  {
    var rest := Parse(Tlv, recv).rest;
    hide Parse, EncodeAll;
    RestHoldsNoFrame(Tlv, recv);
    ParseTail(Tlv, rest);
    assert |rest| < 4 + MAX_LENGTH;
    ParseThenEncode(Tlv, rest + chunk);
    FramesTakeFourBytes(Parse(Tlv, rest + chunk).frames);
  }

  lemma SettledWaitsForNothing(v: Server, s: Sid)
    requires s < |v.sessions| && Settled(v, s)
    ensures Waiting(v, s) == 0
  {
    QueuedOfOthers(s, v.queue);
  }

  lemma {:induction false} QueuedOfOthers(s: Sid, nodes: seq<Node>)
    requires forall n <- nodes :: n.sid != s
    ensures QueuedOf(s, nodes) == 0
  {
    if nodes != [] {
      assert nodes[0] in nodes;
      QueuedOfOthers(s, nodes[1..]);
    }
  }

  /** Back-pressure does not touch a client that waits for its answers: of the messages that one chunk
      completes in a settled session no reply is refused, whatever else happens on the server. */
  lemma OneChunkIsNeverRefused(cb: Callbacks, before: seq<Event>, v: Server, s: Sid, chunk: seq<Byte>,
                               after: seq<Event>, z: Server)
    requires Run(cb, NEW_SERVER, before, v) && Enabled(cb, v, EvReadDone(s, chunk)) && Settled(v, s)
    requires Run(cb, Step(cb, v, EvReadDone(s, chunk)), after, z)
    requires forall e <- after :: !(e.EvReadDone? && e.s == s)
    ensures s < |z.sessions|
    ensures RefusedCount(z.sessions[s].pipe.offers) == RefusedCount(v.sessions[s].pipe.offers)
  {
    ReachableInv(cb, before, v);
    var y := ReadDone(v, s, chunk);
    hide Inv, Run, Parse, RefusedCount, PipeOk, OwnedOne, AnswersTo, OfferedFrames, Of;
    InvKept(cb, v, EvReadDone(s, chunk));
    InvAt(cb, v, s);
    ChunkIsSmall(v.sessions[s].recv, chunk);
    SettledWaitsForNothing(v, s);
    assert Waiting(y, s) <= MAX_SENDQUE_SIZE;
    NothingIsRefused(cb, y, after, z, s);
  }

  // ---------------------------------------------------------------- every stream is served

  lemma PrefixNeedsMore(a: seq<Byte>, b: seq<Byte>)
    requires Parse(Tlv, a + b).stop == NeedMore
    ensures Parse(Tlv, a).stop == NeedMore && Parse(Tlv, Parse(Tlv, a).rest + b).stop == NeedMore
  {
    ParseResumes(Tlv, a, b);
  }

  /** The state between two chunks of a client that waits for its answers: everything is at rest, the
      session has received this, its next read is armed, it is in the map, and nothing was refused. */
  predicate Serving(v: Server, s: Sid, recv: seq<Byte>) {
    && Quiescent(v) && v.stop.Running? && s < |v.sessions|
    && v.sessions[s].recv == recv && v.sessions[s].reader.Reading? && v.sessions[s].mapped
    && !v.sessions[s].pipe.failed && RefusedCount(v.sessions[s].pipe.offers) == 0
  }

  lemma ServingIsSettled(cb: Callbacks, v: Server, s: Sid, recv: seq<Byte>)
    requires WorkerPosition(cb, v) && Serving(v, s, recv)
    ensures Settled(v, s)
  {
    assert SessQuiet(v.sessions[s]);
  }

  lemma InvMeansPosition(cb: Callbacks, v: Server)
    requires Inv(cb, v)
    ensures WorkerPosition(cb, v)
  {
    hide WorkerPosition;
  }

  lemma ServedOnTheWire(cb: Callbacks, before: seq<Event>, v: Server, more: seq<Event>, z: Server,
                        s: Sid, recv: seq<Byte>)
    requires Run(cb, NEW_SERVER, before, v) && Run(cb, v, more, z) && Serving(z, s, recv)
    ensures z.sessions[s].pipe.wire == EncodeAll(Tlv, AnswersTo(cb, Parse(Tlv, recv).frames))
  {
    hide Inv, Run, Parse, EncodeAll, AnswersTo, Quiescent, Settled;
    RunsCompose(cb, NEW_SERVER, before, v, more, z);
    ReachableInv(cb, before + more, z);
    InvMeansPosition(cb, z);
    ServingIsSettled(cb, z, s, recv);
    EndToEnd(cb, before + more, z, s);
  }

  /** A new client, once everything else is at rest. */
  lemma ServeNothing(cb: Callbacks, v: Server) returns (more: seq<Event>, z: Server)
    requires Inv(cb, v) && v.stop.Running?
    ensures Run(cb, v, more, z) && Serving(z, |v.sessions|, [])
  {
    hide Inv, Run, Quiescent;
    var y;
    more, y := Complete(cb, v);
    OwnSteps(cb, v, more, y, 0);
    RunOne(cb, v, more, y, EvAccept);
    AcceptedAtRest(y);
    more, z := more + [EvAccept], Step(cb, y, EvAccept);
  }

  lemma AcceptedAtRest(v: Server)
    requires Quiescent(v) && v.stop.Running?
    ensures Quiescent(Accepted(v))
  {
    var z := Accepted(v);
    assert forall s | 0 <= s < |v.sessions| :: SessQuiet(v.sessions[s]) && z.sessions[s] == v.sessions[s];
  }

  /** One chunk more. */
  lemma ServeOne(cb: Callbacks, before: seq<Event>, v: Server, s: Sid, recv: seq<Byte>, chunk: seq<Byte>)
    returns (more: seq<Event>, z: Server)
    requires Run(cb, NEW_SERVER, before, v) && Serving(v, s, recv)
    requires 0 < |chunk| <= MAX_LENGTH && Parse(Tlv, recv + chunk).stop == NeedMore
    ensures Run(cb, v, more, z) && Serving(z, s, recv + chunk)
  {
    var e := EvReadDone(s, chunk);
    ReadStarts(cb, v, s, recv, chunk);
    var y := Step(cb, v, e);
    hide Inv, Run, Parse, RefusedCount, Settled, Internal, Quiescent, Step, Enabled;
    ReachableInv(cb, before, v);
    InvMeansPosition(cb, v);
    ServingIsSettled(cb, v, s, recv);
    InvKept(cb, v, e);
    RunOne(cb, NEW_SERVER, before, v, e);
    var own;
    own, z := Complete(cb, y);
    OwnIsHarmless(own, s);
    OwnSteps(cb, y, own, z, s);
    OneChunkIsNeverRefused(cb, before, v, s, chunk, own, z);
    RunMore(cb, v, e, own, z);
    more := [e] + own;
    StillServing(cb, before + [e], y, own, z, s, recv + chunk);
  }

  lemma ReadStarts(cb: Callbacks, v: Server, s: Sid, recv: seq<Byte>, chunk: seq<Byte>)
    requires Serving(v, s, recv) && 0 < |chunk| <= MAX_LENGTH && Parse(Tlv, recv + chunk).stop == NeedMore
    ensures Enabled(cb, v, EvReadDone(s, chunk))
    ensures var y := Step(cb, v, EvReadDone(s, chunk));
            && y.stop.Running? && s < |y.sessions| && !y.sessions[s].reader.NoRead?
            && y.sessions[s].recv == recv + chunk && !y.sessions[s].pipe.failed
  {
    PrefixNeedsMore(recv, chunk);
    hide Parse;
  }

  lemma OwnIsHarmless(own: seq<Event>, s: Sid)
    requires forall e <- own :: Internal(e)
    ensures forall e <- own :: !e.EvReadDone? && !WriteFails(s, e)
  {}

  lemma StillServing(cb: Callbacks, before: seq<Event>, y: Server, own: seq<Event>, z: Server,
                     s: Sid, recv: seq<Byte>)
    requires Run(cb, NEW_SERVER, before, y) && OwnRun(cb, y, own, z)
    requires y.stop.Running? && s < |y.sessions| && !y.sessions[s].reader.NoRead? && y.sessions[s].recv == recv
    requires Parse(Tlv, recv).stop == NeedMore && !y.sessions[s].pipe.failed
    requires s < |z.sessions| && RefusedCount(z.sessions[s].pipe.offers) == 0
    ensures Serving(z, s, recv)
  {
    hide Run, Parse, RefusedCount, Quiescent, WriteFails, Internal;
    AtRestItReadsOn(cb, before, y, own, z, s);
    OwnSteps(cb, y, own, z, s);
    OwnIsHarmless(own, s);
    FailHistory(cb, y, own, z, s);
    RunsCompose(cb, NEW_SERVER, before, y, own, z);
    SessionLifetime(cb, before + own, z, s);
  }

  /** From any state, reached in any run, in which the event loop runs, a new client can be accepted and
      served: whatever stream without a refused or negative header it sends, cut into whatever chunks,
      some run delivers it all, keeps the session open and in the map, refuses nothing, and has written
      exactly the replies to all its registered messages. */
  lemma {:induction false} EveryStreamCanBeServed(cb: Callbacks, before: seq<Event>, v: Server,
                                                  chunks: seq<seq<Byte>>)
    returns (more: seq<Event>, z: Server)
    requires Run(cb, NEW_SERVER, before, v) && v.stop.Running?
    requires forall c <- chunks :: 0 < |c| <= MAX_LENGTH
    requires Parse(Tlv, Concat(chunks)).stop == NeedMore
    ensures Run(cb, v, more, z) && Serving(z, |v.sessions|, Concat(chunks))
    ensures z.sessions[|v.sessions|].pipe.wire == EncodeAll(Tlv, AnswersTo(cb, Parse(Tlv, Concat(chunks)).frames))
    decreases |chunks|
  {
    var s := |v.sessions|;
    if chunks == [] {
      ReachableInv(cb, before, v);
      hide Inv, Run, Serving, Parse, EncodeAll, AnswersTo;
      more, z := ServeNothing(cb, v);
    } else {
      var init, last := chunks[..|chunks| - 1], chunks[|chunks| - 1];
      hide Run, Serving, Parse, EncodeAll, AnswersTo;
      PrefixNeedsMore(Concat(init), last);
      var y, rest;
      more, y := EveryStreamCanBeServed(cb, before, v, init);
      RunsCompose(cb, NEW_SERVER, before, v, more, y);
      rest, z := ServeOne(cb, before + more, y, s, Concat(init), last);
      RunsCompose(cb, v, more, y, rest, z);
      more := more + rest;
    }
    assert Serving(z, s, Concat(chunks));
    ServedOnTheWire(cb, before, v, more, z, s, Concat(chunks));
  }

  // ---------------------------------------------------------------- whatever clients and sockets do

  /** What is left to a client, in every state of every run in which the event loop runs: connecting;
      and for a session that reads any chunk of up to MAX_LENGTH bytes that leads to no negative length,
      or a failed read. */
  lemma WhateverTheClientDoes(cb: Callbacks, events: seq<Event>, v: Server, s: Sid, chunk: seq<Byte>)
    requires Run(cb, NEW_SERVER, events, v) && v.stop.Running?
    requires s < |v.sessions| ==> v.sessions[s].reader.Reading? && 0 < |chunk| <= MAX_LENGTH
    ensures Enabled(cb, v, EvAccept)
    ensures s < |v.sessions| ==>
              && Enabled(cb, v, EvReadFailed(s))
              && (Enabled(cb, v, EvReadDone(s, chunk)) <==>
                  Parse(Tlv, v.sessions[s].recv + chunk).stop != NegativeLength)
  {
    hide Inv, Run, Parse, HandlersIdle, CanTransmit, CanLand;
    ReachableInv(cb, events, v);
    InvMeansParsing(cb, v);
    if s < |v.sessions| {
      assert SessParsed(v.posted, s, v.sessions[s]);
      hide Parsing, SessParsed;
      ParseResumes(Tlv, v.sessions[s].recv, chunk);
    }
  }

  lemma InvMeansPipes(cb: Callbacks, v: Server)
    requires Inv(cb, v)
    ensures Pipes(v)
  {
    hide Pipes;
  }

  /** What is left to a session's socket while replies wait in front of it: unless the write handler is
      due, writing any part of what is missing, completing if and only if nothing is, and failing. */
  lemma WhateverTheSocketOfASessionDoes(cb: Callbacks, events: seq<Event>, v: Server, s: Sid, k: nat)
    requires Run(cb, NEW_SERVER, events, v) && v.stop.Running?
    requires s < |v.sessions| && v.sessions[s].pipe.queue != [] && !v.sessions[s].pipe.failed
    ensures var p := v.sessions[s].pipe;
            if p.flights == [] then p.landed > 0
            else
              var missing := |Encode(Tlv, p.queue[0])| - p.flights[0].sent;
              && Enabled(cb, v, EvWriteFailed(s, 0))
              && (Enabled(cb, v, EvTransmit(s, 0, k)) <==> 0 < k <= missing)
              && (Enabled(cb, v, EvLand(s, 0)) <==> missing == 0)
  {
    hide Inv, Run, PipeOk, Encode, HandlersIdle, CanReadDone;
    ReachableInv(cb, events, v);
    InvMeansPipes(cb, v);
    WhateverTheSocketDoes(Tlv, v.sessions[s].pipe, k);
  }
}
