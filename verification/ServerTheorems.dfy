/** What the server promises, over every run: any sessions, any chunking, any interleaving. */
module ServerTheorems {
  import opened Codec
  import opened LogicQueues
  import opened SendQueues
  import opened Servers
  import opened ServerInvariants

  // ---------------------------------------------------------------- end to end

  lemma {:induction false} OfAppend(s: Sid, a: seq<Node>, b: seq<Node>)
    ensures Of(s, a + b) == Of(s, a) + Of(s, b)
    decreases |b|
  {
    if b == [] {
      assert a + b == a;
    } else {
      var m := |b| - 1;
      OfAppend(s, a, b[..m]);
      assert (a + b)[..|a| + m] == a + b[..m];
    }
  }

  lemma {:induction false} AnswersToAppend(cb: Callbacks, a: seq<Frame>, b: seq<Frame>)
    ensures AnswersTo(cb, a + b) == AnswersTo(cb, a) + AnswersTo(cb, b)
    decreases |b|
  {
    if b == [] {
      assert a + b == a;
    } else {
      var init, last := b[..|b| - 1], b[|b| - 1];
      AnswersToAppend(cb, a, init);
      hide AnswersTo;
      assert b == init + [last];
      Associative(a, init, [last]);
      AnswersToOne(cb, init, last);
      AnswersToOne(cb, a + init, last);
      Associative(AnswersTo(cb, a), AnswersTo(cb, init), if last.id in cb then [cb[last.id](last)] else []);
    }
  }

  /** The messages served are the first ones of those posted, which are the first ones of those in
      the bytes received. */
  lemma ServedFirst(cb: Callbacks, v: Server, s: Sid)
    requires Inv(cb, v) && s < |v.sessions|
    ensures Served(v, s) <= Of(s, v.posted) <= Parse(Tlv, v.sessions[s].recv).frames
  {
    hide Inv, Parse, OwnedOne, PipeOk, AnswersTo, OfferedFrames;
    InvAt(cb, v, s);
    OfAppend(s, v.taken, v.queue);
    if JustAnswered(v, s) {
      OfAppend(s, [v.queue[0]], v.queue[1..]);
      assert v.queue == [v.queue[0]] + v.queue[1..];
      OfOne(s, [], v.queue[0]);
      assert [] + [v.queue[0]] == [v.queue[0]];
    }
  }

  /** Nothing of the session is on its way through the server. */
  predicate Settled(v: Server, s: Sid)
    requires s < |v.sessions|
  {
    var x := v.sessions[s];
    && (x.reader.Reading? || x.reader.NoRead?)
    && (forall n <- v.queue :: n.sid != s)
    && x.pipe.queue == []
  }

  lemma {:induction false} OfOthers(s: Sid, nodes: seq<Node>)
    requires forall n <- nodes :: n.sid != s
    ensures Of(s, nodes) == []
  {
    if nodes != [] {
      OfOthers(s, nodes[..|nodes| - 1]);
    }
  }

  /** A settled session has served every message in the bytes it received. */
  lemma SettledIsServed(cb: Callbacks, v: Server, s: Sid)
    requires Inv(cb, v) && s < |v.sessions| && Settled(v, s)
    ensures Served(v, s) == Parse(Tlv, v.sessions[s].recv).frames
  {
    hide Inv, Parse, Of, OwnedOne, PipeOk, AnswersTo, OfferedFrames;
    InvAt(cb, v, s);
    OfAppend(s, v.taken, v.queue);
    OfOthers(s, v.queue);
    assert !JustAnswered(v, s);
    var served := Of(s, v.taken);
    assert served + [] == served;
  }

  /** End to end.  What a session writes is a prefix of the encodings of the replies taken into its
      send queue; with no send refused, of the replies to all registered messages in the bytes it
      received, in order; and once the session is settled it is all of them.  Errors, refused
      headers and a stop are allowed. */
  lemma EndToEnd(cb: Callbacks, events: seq<Event>, v: Server, s: Sid)
    requires Run(cb, NEW_SERVER, events, v) && s < |v.sessions|
    ensures var x := v.sessions[s];
            var replies := AnswersTo(cb, Parse(Tlv, x.recv).frames);
            && x.pipe.wire <= EncodeAll(Tlv, TakenFrames(x.pipe.offers))
            && OfferedFrames(x.pipe.offers) <= replies
            && (RefusedCount(x.pipe.offers) == 0 ==> x.pipe.wire <= EncodeAll(Tlv, replies))
            && (RefusedCount(x.pipe.offers) == 0 && Settled(v, s) ==> x.pipe.wire == EncodeAll(Tlv, replies))
  {
    var x := v.sessions[s];
    assert Settled(v, s) ==> x.pipe.queue == [];
    hide Inv, Run, PipeOk, Parse, EncodeAll, AnswersTo, Served, TakenFrames, OfferedFrames, RefusedCount, Settled,
         SessParsed, OwnedOne;
    ReachableInv(cb, events, v);
    InvAt(cb, v, s);
    ServedFirst(cb, v, s);
    if Settled(v, s) {
      SettledIsServed(cb, v, s);
    }
    WireIsAPrefix(Tlv, x.pipe);
    CountOffers(x.pipe.offers);
    AnswersPrefix(cb, Served(v, s), Parse(Tlv, x.recv).frames);
  }

  lemma AnswersPrefix(cb: Callbacks, some: seq<Frame>, all: seq<Frame>)
    requires some <= all
    ensures AnswersTo(cb, some) <= AnswersTo(cb, all)
    ensures EncodeAll(Tlv, AnswersTo(cb, some)) <= EncodeAll(Tlv, AnswersTo(cb, all))
  {
    hide AnswersTo, EncodeAll;
    var n := |some|;
    assert all == some + all[n..];
    AnswersToAppend(cb, some, all[n..]);
    EncodeAllAppend(Tlv, AnswersTo(cb, some), AnswersTo(cb, all[n..]));
  }

  /** A session without a read never reads, posts or enters the map again. */
  lemma WithoutAReadNothingIsPosted(cb: Callbacks, v: Server, s: Sid, e: Event)
    requires s < |v.sessions| && v.sessions[s].reader.NoRead? && Enabled(cb, v, e)
    ensures var z := Step(cb, v, e);
            && s < |z.sessions| && z.sessions[s].reader.NoRead?
            && z.sessions[s].recv == v.sessions[s].recv
            && (z.sessions[s].mapped ==> v.sessions[s].mapped)
            && Of(s, z.posted) == Of(s, v.posted)
  {
    hide PipeStep, Offered, Parse, CanTransmit, CanLand, PipeEnabled, Of;
    if e.EvPush? {
      OfOne(s, v.posted, Task(e.s, v.sessions[e.s].reader.todo[0]));
    } else {
      OnlyAPushPosts(cb, v, e);
    }
  }

  lemma OnlyAPushPosts(cb: Callbacks, v: Server, e: Event)
    requires Enabled(cb, v, e) && !e.EvPush?
    ensures Step(cb, v, e).posted == v.posted
  {
    hide PipeStep, Offered, Parse, CanTransmit, CanLand, PipeEnabled;
  }

  /** Behind a refused header the handler posts what came before it and then ends for good: the
      session has then posted every frame in front of that header, is out of the map, and stays so
      in every run. */
  lemma {:induction false} NothingAfterARefusedHeader(cb: Callbacks, before: seq<Event>, v: Server, s: Sid,
                                                      after: seq<Event>, z: Server)
    requires Run(cb, NEW_SERVER, before, v) && Run(cb, v, after, z)
    requires s < |v.sessions| && Parse(Tlv, v.sessions[s].recv).stop == Refused && v.sessions[s].reader.NoRead?
    ensures s < |z.sessions| && z.sessions[s].reader.NoRead? && !z.sessions[s].mapped
    ensures z.sessions[s].recv == v.sessions[s].recv
    ensures Of(s, z.posted) == Parse(Tlv, v.sessions[s].recv).frames
  {
    hide Inv, Run, Of, Parse, PipeOk, AnswersTo, OfferedFrames;
    ReachableInv(cb, before, v);
    InvAt(cb, v, s);
    assert Of(s, v.posted) + [] == Of(s, v.posted);
    StaysSilent(cb, v, s, after, z);
  }

  lemma {:induction false} StaysSilent(cb: Callbacks, v: Server, s: Sid, events: seq<Event>, z: Server)
    requires s < |v.sessions| && v.sessions[s].reader.NoRead? && Run(cb, v, events, z)
    ensures s < |z.sessions| && z.sessions[s].reader.NoRead?
    ensures z.sessions[s].recv == v.sessions[s].recv && (z.sessions[s].mapped ==> v.sessions[s].mapped)
    ensures Of(s, z.posted) == Of(s, v.posted)
    decreases |events|
  {
    hide Enabled, Step, Of;
    if events != [] {
      WithoutAReadNothingIsPosted(cb, v, s, events[0]);
      StaysSilent(cb, Step(cb, v, events[0]), s, events[1..], z);
    }
  }

  /** Every session's pipeline keeps what `SendQueues` proves of one: one operation at a time, carrying
      the front frame; sends taken are those popped and queued, in order; and refusals exactly at the
      size limit.  The worker and the write handlers may be at it from different threads. */
  lemma PipelinesHold(cb: Callbacks, events: seq<Event>, v: Server, s: Sid)
    requires Run(cb, NEW_SERVER, events, v) && s < |v.sessions|
    ensures OneAtATime(v.sessions[s].pipe) && Accounted(v.sessions[s].pipe)
  {
    ReachableInv(cb, events, v);
    InvAt(cb, v, s);
  }

  /** A failed pipeline has no operation and no due handler. */
  predicate FailedPipe(p: Pipe) {
    p.failed && p.flights == [] && p.landed == 0 && p.queue != []
  }

  lemma FailedOne(cb: Callbacks, v: Server, s: Sid)
    requires Inv(cb, v) && s < |v.sessions| && v.sessions[s].pipe.failed
    ensures FailedPipe(v.sessions[s].pipe) && !v.sessions[s].mapped
  {
    hide Inv, SessParsed;
    InvAt(cb, v, s);
  }

  lemma FailedStep(cb: Callbacks, v: Server, s: Sid, e: Event)
    requires s < |v.sessions| && FailedPipe(v.sessions[s].pipe) && Enabled(cb, v, e)
    ensures s < |Step(cb, v, e).sessions|
    ensures var p, q := v.sessions[s].pipe, Step(cb, v, e).sessions[s].pipe;
            q.failed && q.wire == p.wire && q.done == p.done && p.queue <= q.queue
  {
    if e.EvWorkerSend? {
      hide Parse, Encode;
    } else {
      hide PipeStep, Parse, Encode, Offered;
    }
  }

  /** After a failed write of a session, whatever else the server does, no operation of that session
      is started again, none of its frames is popped, nothing more is written, and it is out of the
      map for good; sends only fill its queue. */
  lemma {:induction false} AFailedWriteIsFinal(cb: Callbacks, before: seq<Event>, v: Server, s: Sid,
                                               after: seq<Event>, z: Server)
    requires Run(cb, NEW_SERVER, before, v) && Run(cb, v, after, z)
    requires s < |v.sessions| && v.sessions[s].pipe.failed
    ensures s < |z.sessions| && !z.sessions[s].mapped
    ensures var p, q := v.sessions[s].pipe, z.sessions[s].pipe;
            && q.failed && q.flights == [] && q.landed == 0
            && q.wire == p.wire && q.done == p.done && p.queue <= q.queue
  {
    ReachableInv(cb, before, v);
    RunKeepsInv(cb, v, after, z);
    FailedForever(cb, v, s, after, z);
    FailedOne(cb, z, s);
  }

  lemma {:induction false} FailedForever(cb: Callbacks, v: Server, s: Sid, events: seq<Event>, z: Server)
    requires Inv(cb, v) && s < |v.sessions| && v.sessions[s].pipe.failed && Run(cb, v, events, z)
    ensures s < |z.sessions|
    ensures var p, q := v.sessions[s].pipe, z.sessions[s].pipe;
            q.failed && q.wire == p.wire && q.done == p.done && p.queue <= q.queue
    decreases |events|
  {
    hide Inv, Enabled, Step;
    if events != [] {
      FailedOne(cb, v, s);
      FailedStep(cb, v, s, events[0]);
      InvKept(cb, v, events[0]);
      FailedForever(cb, Step(cb, v, events[0]), s, events[1..], z);
    }
  }

  // ---------------------------------------------------------------- the logic queue

  /** Only the push that makes the size 1 notifies; still the worker never sleeps on a non-empty
      queue unless some producer is still going to notify it. */
  lemma NoLostWakeUp(cb: Callbacks, events: seq<Event>, v: Server)
    requires Run(cb, NEW_SERVER, events, v)
    requires v.worker.WAsleep? && v.queue != []
    ensures exists s :: 0 <= s < |v.sessions| && Owes(v.sessions[s])
  {
    ReachableInv(cb, events, v);
  }

  /** The notifications still owed. */
  function Owing(ss: seq<Sess>): nat {
    if ss == [] then 0 else B(Owes(ss[0])) + Owing(ss[1..])
  }

  /** The pushes of a run that met an empty queue. */
  ghost function FirstPushes(cb: Callbacks, v: Server, events: seq<Event>): nat
    decreases |events|
  {
    if events == [] || !Enabled(cb, v, events[0]) then 0
    else B(events[0].EvPush? && v.queue == []) + FirstPushes(cb, Step(cb, v, events[0]), events[1..])
  }

  /** The handler pays a notification it owes. */
  predicate Pays(v: Server, e: Event) {
    e.EvLeave? && e.s < |v.sessions| && Owes(v.sessions[e.s])
  }

  ghost function Payments(cb: Callbacks, v: Server, events: seq<Event>): nat
    decreases |events|
  {
    if events == [] || !Enabled(cb, v, events[0]) then 0
    else B(Pays(v, events[0])) + Payments(cb, Step(cb, v, events[0]), events[1..])
  }

  lemma {:induction false} OwingAppend(ss: seq<Sess>, x: Sess)
    ensures Owing(ss + [x]) == Owing(ss) + B(Owes(x))
  {
    if ss == [] {
      assert (ss + [x])[1..] == [];
    } else {
      OwingAppend(ss[1..], x);
      assert (ss + [x])[1..] == ss[1..] + [x];
    }
  }

  lemma {:induction false} OwingUpdate(ss: seq<Sess>, s: Sid, x: Sess)
    requires s < |ss|
    ensures Owing(ss[s := x]) + B(Owes(ss[s])) == Owing(ss) + B(Owes(x))
  {
    if s == 0 {
      assert ss[s := x][1..] == ss[1..];
    } else {
      OwingUpdate(ss[1..], s - 1, x);
      assert ss[s := x][1..] == ss[1..][s - 1 := x];
    }
  }

  lemma {:induction false} SameOwing(a: seq<Sess>, b: seq<Sess>)
    requires |a| == |b| && forall s | 0 <= s < |a| :: Owes(a[s]) <==> Owes(b[s])
    ensures Owing(a) == Owing(b)
  {
    if a != [] {
      SameOwing(a[1..], b[1..]);
    }
  }

  /** A push onto an empty queue makes one notification owed, a payment one fewer. */
  lemma OwingStep(cb: Callbacks, v: Server, e: Event)
    requires Enabled(cb, v, e)
    ensures Owing(Step(cb, v, e).sessions) + B(Pays(v, e)) == Owing(v.sessions) + B(e.EvPush? && v.queue == [])
  {
    hide PipeStep, Offered, Parse, CanTransmit, CanLand, PipeEnabled, Owing;
    var z := Step(cb, v, e);
    if e.EvAccept? {
      OwingAppend(v.sessions, z.sessions[|v.sessions|]);
    } else if e.EvPush? || e.EvLeave? {
      OwingUpdate(v.sessions, e.s, z.sessions[e.s]);
    } else {
      SameOwing(v.sessions, z.sessions);
    }
  }

  lemma {:induction false} NotificationsOfARun(cb: Callbacks, v: Server, events: seq<Event>, z: Server)
    requires Run(cb, v, events, z)
    ensures Payments(cb, v, events) + Owing(z.sessions) == FirstPushes(cb, v, events) + Owing(v.sessions)
    decreases |events|
  {
    hide Enabled, Step, Owing, Pays;
    if events != [] {
      OwingStep(cb, v, events[0]);
      NotificationsOfARun(cb, Step(cb, v, events[0]), events[1..], z);
    }
  }

  /** In every run the notifications paid and those still owed are as many as the pushes that met an
      empty queue; once no handler is on its way out of PostMsg2Que, each of these has been notified
      exactly once. */
  lemma EveryFirstPushIsNotified(cb: Callbacks, events: seq<Event>, v: Server)
    requires Run(cb, NEW_SERVER, events, v)
    ensures Payments(cb, NEW_SERVER, events) + Owing(v.sessions) == FirstPushes(cb, NEW_SERVER, events)
    ensures (forall x <- v.sessions :: !x.reader.Leaving?) ==>
              Payments(cb, NEW_SERVER, events) == FirstPushes(cb, NEW_SERVER, events)
  {
    NotificationsOfARun(cb, NEW_SERVER, events, v);
    if forall x <- v.sessions :: !x.reader.Leaving? {
      NobodyOwes(v.sessions);
    }
  }

  lemma {:induction false} NobodyOwes(ss: seq<Sess>)
    requires forall x <- ss :: !x.reader.Leaving?
    ensures Owing(ss) == 0
  {
    if ss != [] {
      NobodyOwes(ss[1..]);
    }
  }

  /** First in, first out: the messages popped and then those queued are those posted; the callbacks
      started are registered messages, with their whole frames, in posting order, and all of them
      once the queue is empty. */
  lemma CallbacksInOrder(cb: Callbacks, events: seq<Event>, v: Server)
    requires Run(cb, NEW_SERVER, events, v)
    ensures v.posted == v.taken + v.queue
    ensures v.calls <= Registered(cb.Keys, v.posted)
    ensures v.queue == [] ==> v.calls == Registered(cb.Keys, v.posted)
  {
    ReachableInv(cb, events, v);
    CallsSoFar(cb, v);
    hide Inv, Registered;
    RegisteredAppend(cb.Keys, v.taken, v.queue);
    if InCallback(v) {
      var front, others := [v.queue[0]], v.queue[1..];
      assert v.queue == front + others;
      RegisteredAppend(cb.Keys, front, others);
      Associative(Registered(cb.Keys, v.taken), front, Registered(cb.Keys, others));
    } else {
      assert v.calls + Registered(cb.Keys, v.queue) == Registered(cb.Keys, v.posted);
    }
    if v.queue == [] {
      NobodyRegistered(cb.Keys);
    }
  }

  lemma CallsSoFar(cb: Callbacks, v: Server)
    requires Inv(cb, v)
    ensures v.posted == v.taken + v.queue
    ensures InCallback(v) ==>
              && v.calls == Registered(cb.Keys, v.taken) + [v.queue[0]]
              && Registered(cb.Keys, [v.queue[0]]) == [v.queue[0]]
    ensures !InCallback(v) ==> v.calls == Registered(cb.Keys, v.taken)
  {
    if InCallback(v) {
      RegisteredOne(cb.Keys, [], v.queue[0]);
      assert [] + [v.queue[0]] == [v.queue[0]];
    } else {
      assert Registered(cb.Keys, v.taken) + [] == Registered(cb.Keys, v.taken);
    }
  }

  lemma NobodyRegistered(ids: set<Short>)
    ensures Registered<Sid>(ids, []) == []
  {}

  /** Exactly once: of the messages popped, those with a registered id were called back as often as
      they were posted, and the others never.  The front message counts as soon as its callback has
      started. */
  lemma ExactlyOnce(cb: Callbacks, events: seq<Event>, v: Server, n: Node)
    requires Run(cb, NEW_SERVER, events, v)
    ensures multiset(v.calls)[n] == if n.frame.id in cb
                                    then multiset(v.taken)[n] + B(InCallback(v) && v.queue[0] == n) else 0
  {
    ReachableInv(cb, events, v);
    RegisteredOccurrences(cb.Keys, v.taken, n);
  }

  predicate Draining(w: WorkerPc) {
    w.WDrain? || (AtFront(w) && w.drain)
  }

  /** A worker that has seen stop keeps the mutex, so that nothing is posted meanwhile, and leaves
      only when every message posted has been popped. */
  lemma StopDrainsFirst(cb: Callbacks, events: seq<Event>, v: Server, e: Event)
    requires Run(cb, NEW_SERVER, events, v) && Enabled(cb, v, e)
    ensures var z := Step(cb, v, e);
            && (Draining(v.worker) ==>
                  && Flagged(v.stop) && z.posted == v.posted
                  && (Draining(z.worker) || (z.worker.WExited? && v.taken == v.posted)))
            && (v.worker.WTest? && e.EvWorkerTest? && Flagged(v.stop) ==> Draining(z.worker))
            && (z.worker.WExited? && !v.worker.WExited? ==> Draining(v.worker))
            && (v.worker.WExited? ==> z.worker.WExited? && z.taken == v.taken)
  {
    ReachableInv(cb, events, v);
    DrainStep(cb, v, e);
  }

  lemma DrainStep(cb: Callbacks, v: Server, e: Event)
    requires MutexHeld(v) && Fifo(v) && Positions(cb, v) && Enabled(cb, v, e)
    ensures var z := Step(cb, v, e);
            && (Draining(v.worker) ==>
                  && Flagged(v.stop) && z.posted == v.posted
                  && (Draining(z.worker) || (z.worker.WExited? && v.taken == v.posted)))
            && (v.worker.WTest? && e.EvWorkerTest? && Flagged(v.stop) ==> Draining(z.worker))
            && (z.worker.WExited? && !v.worker.WExited? ==> Draining(v.worker))
            && (v.worker.WExited? ==> z.worker.WExited? && z.taken == v.taken)
  {
    hide PipeStep, Offered, Parse, CanTransmit, CanLand, PipeEnabled;
    assert v.taken + [] == v.taken;
  }

  // ---------------------------------------------------------------- locks

  /** Thread `t` wants a lock that thread `u` holds. */
  predicate WaitsFor(v: Server, t: Tid, u: Tid) {
    match t
    case Worker =>
      || ((v.worker.WStart? || v.worker.WWoken?) && v.mutex == HeldBy(u))
      || (v.worker.WCall? && HasFront(v) && v.sessions[v.queue[0].sid].sendLock == HeldBy(u))
    case Reader(s) => s < |v.sessions| && v.sessions[s].reader.Posting? && v.mutex == HeldBy(u)
    case Writer(s) =>
      s < |v.sessions| && v.sessions[s].pipe.landed > 0 && v.sessions[s].sendLock == HeldBy(u) && u != t
  }

  predicate HoldsSendLock(v: Server, t: Tid) {
    exists s :: 0 <= s < |v.sessions| && v.sessions[s].sendLock == HeldBy(t)
  }

  /** Lock order: _send_lock may be taken while holding _mutex, never the other way round.  A thread
      that holds a _send_lock waits for nothing, and only the worker waits while it holds _mutex,
      namely for a _send_lock. */
  lemma LockOrder(cb: Callbacks, v: Server, t: Tid, u: Tid)
    requires Inv(cb, v) && WaitsFor(v, t, u)
    ensures !HoldsSendLock(v, t)
    ensures v.mutex == HeldBy(u) || HoldsSendLock(v, u)
    ensures v.mutex == HeldBy(t) ==> t == Worker && v.worker.WCall? && HoldsSendLock(v, u)
  {
    hide Fifo, WakeUpDue, Parsing, Calling, Answering, Pipes, Owned;
  }

  /** In no reachable state do threads wait for each other in a cycle; no chain of threads each
      waiting for the next has more than three members. */
  lemma NoWaitingCycle(cb: Callbacks, events: seq<Event>, v: Server, chain: seq<Tid>)
    requires Run(cb, NEW_SERVER, events, v)
    requires |chain| > 1 && forall i | 0 <= i < |chain| - 1 :: WaitsFor(v, chain[i], chain[i + 1])
    ensures |chain| <= 3
    ensures chain[0] != chain[|chain| - 1]
  {
    ReachableInv(cb, events, v);
    hide Inv, WaitsFor, HoldsSendLock;
    LockOrder(cb, v, chain[0], chain[1]);
    if |chain| > 2 {
      LockOrder(cb, v, chain[1], chain[2]);
      if |chain| > 3 {
        LockOrder(cb, v, chain[2], chain[3]);
      }
    }
  }

  // ---------------------------------------------------------------- session lifetime

  /** The step runs code on this session object, or uses memory it owns. */
  predicate Uses(v: Server, e: Event, s: Sid) {
    match e
    case EvReadDone(t, _) => t == s
    case EvReadFailed(t) => t == s
    case EvMakeNode(t) => t == s
    case EvPostLock(t) => t == s
    case EvPush(t) => t == s
    case EvLeave(t) => t == s
    case EvEndRead(t) => t == s
    case EvWorkerLook => HasFront(v) && v.queue[0].sid == s
    case EvWorkerSendLock => HasFront(v) && v.queue[0].sid == s
    case EvWorkerSend => HasFront(v) && v.queue[0].sid == s
    case EvWorkerPop => HasFront(v) && v.queue[0].sid == s
    case EvTransmit(t, _, _) => t == s
    case EvLand(t, _) => t == s
    case EvWriteLock(t) => t == s
    case EvWritePop(t) => t == s
    case EvWriteFailed(t, _) => t == s
    case _ => false
  }

  lemma QueuedOfFront(v: Server)
    requires HasFront(v)
    ensures QueuedOf(v.queue[0].sid, v.queue) > 0
  {}

  /** In every reachable state the owner count of a session is the number of its holders: the map,
      its read handler, its write operations and handlers, its live logic nodes and a running
      callback.  So no handler or callback ever runs on a destroyed session.  And a session is in
      the map exactly as long as it has a read armed or running and no write has failed. */
  lemma SessionLifetime(cb: Callbacks, events: seq<Event>, v: Server, s: Sid)
    requires Run(cb, NEW_SERVER, events, v) && s < |v.sessions|
    ensures v.sessions[s].refs == OwnersOf(v, s)
    ensures v.sessions[s].mapped <==> ReadAlive(v.sessions[s].reader) && !v.sessions[s].pipe.failed
    ensures forall e | Enabled(cb, v, e) && Uses(v, e, s) :: v.sessions[s].refs > 0
  {
    hide Inv, Run, QueuedOf, Parse, PipeOk, AnswersTo, OfferedFrames, SessParsed;
    ReachableInv(cb, events, v);
    InvAt(cb, v, s);
    if HasFront(v) {
      QueuedOfFront(v);
    }
  }

  /** A destroyed session is never touched again. */
  lemma DestroyedIsFinal(cb: Callbacks, events: seq<Event>, v: Server, s: Sid, e: Event)
    requires Run(cb, NEW_SERVER, events, v) && s < |v.sessions| && Enabled(cb, v, e)
    requires v.sessions[s].refs == 0
    ensures Step(cb, v, e).sessions[s] == v.sessions[s]
  {
    SessionLifetime(cb, events, v, s);
    hide PipeStep, Offered, Parse, CanTransmit, CanLand, PipeEnabled, OwnersOf;
  }
}
