/** The announced graceful exit: whether the worker, told to stop, works off its queue and ends.

    `~LogicSystem` runs behind the event loop, so nothing is posted any more; but it sets `_b_stop`
    and notifies without the mutex.  A worker that is at that moment between its test and its wait
    does not notice. */
module ServerStops {
  import opened Codec
  import opened LogicQueues
  import opened SendQueues
  import opened Servers
  import opened ServerInvariants
  import opened ServerTheorems
  import opened ServerLiveness

  // ---------------------------------------------------------------- noticed or lost

  /** The worker is where it will test the flag before it waits again, or has ended. */
  predicate Noticed(v: Server) {
    v.stop.StopNotified? && !v.worker.WNone? && !v.worker.WDoze? && !v.worker.WAsleep?
  }

  predicate Lost(v: Server) {
    v.stop.StopNotified? && (v.worker.WDoze? || v.worker.WAsleep?)
  }

  lemma NoticedOrLostKept(cb: Callbacks, v: Server, e: Event)
    requires Enabled(cb, v, e) && Internal(e)
    ensures Noticed(v) ==> Noticed(Step(cb, v, e))
    ensures Lost(v) ==> Lost(Step(cb, v, e))
  {
    hide PipeStep, Offered, Parse, CanTransmit, CanLand, PipeEnabled;
  }

  lemma {:induction false} NoticedOrLostEnds(cb: Callbacks, v: Server, own: seq<Event>, z: Server)
    requires OwnRun(cb, v, own, z)
    ensures Noticed(v) ==> z.worker.WExited?
    ensures Lost(v) ==> z.worker.WAsleep?
    decreases |own|
  {
    hide Enabled, Step, Internal;
    if own != [] {
      assert own[0] in own;
      NoticedOrLostKept(cb, v, own[0]);
      NoticedOrLostEnds(cb, Step(cb, v, own[0]), own[1..], z);
    }
  }

  // ---------------------------------------------------------------- exactly when the worker ends

  /** What the notification of the destructor finds and leaves. */
  lemma Notifying(cb: Callbacks, before: seq<Event>, v: Server)
    requires Run(cb, NEW_SERVER, before, v) && v.stop.StopSet?
    ensures var u := Step(cb, v, EvNotifyStop);
            Inv(cb, u) && (if v.worker.WDoze? then Lost(u) else Noticed(u))
  {
    ReachableInv(cb, before, v);
    InvKept(cb, v, EvNotifyStop);
    assert WorkerPosition(cb, v);
  }

  /** Every schedule of the server's own steps ends with the worker gone if and only if the stop was
      not notified in the gap between the worker's test and its wait. */
  lemma EveryScheduleEndsTheWorker(cb: Callbacks, before: seq<Event>, v: Server)
    requires Run(cb, NEW_SERVER, before, v) && v.stop.StopSet?
    ensures (forall own, z | OwnRun(cb, Step(cb, v, EvNotifyStop), own, z) :: z.worker.WExited?)
            <==> !v.worker.WDoze?
  {
    var u := Step(cb, v, EvNotifyStop);
    hide Inv, Run, OwnRun, Enabled, Step;
    Notifying(cb, before, v);
    if v.worker.WDoze? {
      var own, z := Complete(cb, u);
      NoticedOrLostEnds(cb, u, own, z);
    } else {
      forall own, z | OwnRun(cb, u, own, z) ensures z.worker.WExited? {
        NoticedOrLostEnds(cb, u, own, z);
      }
    }
  }

  /** And no other schedule helps: some schedule ends with the worker gone under the same condition
      and no other. */
  lemma SomeScheduleEndsTheWorker(cb: Callbacks, before: seq<Event>, v: Server)
    requires Run(cb, NEW_SERVER, before, v) && v.stop.StopSet?
    ensures (exists own, z :: OwnRun(cb, Step(cb, v, EvNotifyStop), own, z) && z.worker.WExited?)
            <==> !v.worker.WDoze?
  {
    var u := Step(cb, v, EvNotifyStop);
    hide Inv, Run, OwnRun, Enabled, Step;
    Notifying(cb, before, v);
    if v.worker.WDoze? {
      forall own, z | OwnRun(cb, u, own, z) ensures !z.worker.WExited? {
        NoticedOrLostEnds(cb, u, own, z);
      }
    } else {
      var own, z := Complete(cb, u);
      NoticedOrLostEnds(cb, u, own, z);
    }
  }

  /** In every state, a worker found asleep behind a notified stop was in its gap when the
      notification came. */
  lemma AsleepBehindAStop(cb: Callbacks, events: seq<Event>, v: Server)
    requires Run(cb, NEW_SERVER, events, v) && v.stop.StopNotified? && v.worker.WAsleep?
    ensures v.stop.workerWas.WDoze?
  {
    ReachableInv(cb, events, v);
  }

  /** The graceful exit, exactly.  At rest behind a notified stop the worker has ended if and only if
      it was not in its gap, and sleeps for good if it was.  Messages are never at stake: either way
      everything received has been popped, every registered message called back once, and every reply
      handed to Send. */
  lemma StopIsLostExactlyInTheGap(cb: Callbacks, before: seq<Event>, v: Server, own: seq<Event>, z: Server)
    requires Run(cb, NEW_SERVER, before, v) && v.stop.StopSet?
    requires OwnRun(cb, Step(cb, v, EvNotifyStop), own, z)
    ensures z.worker.WExited? <==> !v.worker.WDoze?
    ensures z.worker.WAsleep? <==> v.worker.WDoze?
    ensures AllHandled(cb, z)
  {
    var u := Step(cb, v, EvNotifyStop);
    assert Enabled(cb, v, EvNotifyStop);
    hide Inv, Run, Enabled, Step, Internal, Quiescent, AllHandled;
    Notifying(cb, before, v);
    RunOne(cb, NEW_SERVER, before, v, EvNotifyStop);
    RunsCompose(cb, NEW_SERVER, before + [EvNotifyStop], u, own, z);
    NoticedOrLostEnds(cb, u, own, z);
    RestMeansHandled(cb, before + [EvNotifyStop] + own, z);
  }

  /** In every state, however it was reached: a worker that has ended has left nothing behind. */
  lemma AnEndedWorkerLeavesNothing(cb: Callbacks, events: seq<Event>, v: Server)
    requires Run(cb, NEW_SERVER, events, v) && v.worker.WExited?
    ensures AllHandled(cb, v)
  {
    RestMeansHandled(cb, events, v);
  }

  // ---------------------------------------------------------------- it does happen

  /** The way down while the worker is between its test and its wait. */
  lemma GoingDown(cb: Callbacks, v: Server)
    requires v.worker.WDoze? && v.stop.Running? && HandlersIdle(v)
    ensures Run(cb, v, [EvLoopEnds, EvSetStop, EvNotifyStop], v.(stop := StopNotified(WDoze)))
  {
    var over := v.(stop := LoopOver);
    var flagged := v.(stop := StopSet);
    var told := v.(stop := StopNotified(WDoze));
    RunMore(cb, flagged, EvNotifyStop, [], told);
    RunMore(cb, over, EvSetStop, [EvNotifyStop], told);
    RunMore(cb, v, EvLoopEnds, [EvSetStop, EvNotifyStop], told);
    hide Run;
    assert [EvNotifyStop] + [] == [EvNotifyStop];
    assert [EvLoopEnds] + ([EvSetStop] + [EvNotifyStop]) == [EvLoopEnds, EvSetStop, EvNotifyStop];
  }

  /** From any state in which no handler is running and the worker is between its test and its wait,
      a destructor that comes in there is not noticed, and nothing is left that would go on. */
  lemma TheGapLosesAStop(cb: Callbacks, v: Server)
    requires v.worker.WDoze? && v.stop.Running? && HandlersIdle(v)
    ensures var z := v.(stop := StopNotified(WDoze), mutex := Free, worker := WAsleep);
            && Run(cb, v, [EvLoopEnds, EvSetStop, EvNotifyStop, EvWorkerSleep], z)
            && forall e | Enabled(cb, z, e) :: e.EvSpurious?
  {
    var told := v.(stop := StopNotified(WDoze));
    GoingDown(cb, v);
    hide Run, HandlersIdle;
    RunOne(cb, v, [EvLoopEnds, EvSetStop, EvNotifyStop], told, EvWorkerSleep);
    assert [EvLoopEnds, EvSetStop, EvNotifyStop] + [EvWorkerSleep]
        == [EvLoopEnds, EvSetStop, EvNotifyStop, EvWorkerSleep];
    NobodyWakesIt(cb, told.(mutex := Free, worker := WAsleep));
  }

  lemma NobodyWakesIt(cb: Callbacks, v: Server)
    requires v.worker.WAsleep? && v.stop.StopNotified?
    ensures forall e | Enabled(cb, v, e) :: e.EvSpurious?
  {}

  /** A read handler has messages left to post. */
  predicate HasTodo(v: Server) {
    exists s :: 0 <= s < |v.sessions| && Todo(v.sessions[s].reader) != []
  }

  predicate SomeoneOwes(v: Server) {
    exists s :: 0 <= s < |v.sessions| && Owes(v.sessions[s])
  }

  /** The server's own steps give a read handler nothing new to post; and while none has anything,
      nothing is posted. */
  lemma TodoShrinks(cb: Callbacks, v: Server, e: Event)
    requires Enabled(cb, v, e) && Internal(e)
    ensures HasTodo(Step(cb, v, e)) ==> HasTodo(v)
    ensures !HasTodo(v) ==> Step(cb, v, e).posted == v.posted
    ensures |Step(cb, v, e).sessions| == |v.sessions| && Step(cb, v, e).stop == v.stop
  {
    hide PipeStep, Offered, Parse, CanTransmit, CanLand, PipeEnabled;
  }

  lemma {:induction false} NothingNewIsPosted(cb: Callbacks, v: Server, own: seq<Event>, z: Server)
    requires Run(cb, v, own, z) && (forall e <- own :: Internal(e)) && !HasTodo(v)
    ensures !HasTodo(z) && z.posted == v.posted && |z.sessions| == |v.sessions| && z.stop == v.stop
    decreases |own|
  {
    hide Enabled, Step, Internal, HasTodo;
    if own != [] {
      assert own[0] in own;
      TodoShrinks(cb, v, own[0]);
      NothingNewIsPosted(cb, Step(cb, v, own[0]), own[1..], z);
    }
  }

  /** The worker is at work, or something is on its way that will wake or create it. */
  predicate Due(v: Server) {
    match v.worker
    case WNone => HasTodo(v)
    case WAsleep => HasTodo(v) || SomeoneOwes(v)
    case WExited => false
    case _ => true
  }

  /** That stays so, as long as a worker with nothing coming does not go to sleep. */
  lemma DueKept(cb: Callbacks, v: Server, e: Event)
    requires Due(v) && !Flagged(v.stop) && Positions(cb, v) && WakeUpDue(v) && Enabled(cb, v, e) && Internal(e)
    requires e.EvWorkerSleep? ==> HasTodo(v)
    ensures Due(Step(cb, v, e))
  {
    if (v.worker.WNone? || v.worker.WAsleep? || e.EvWorkerSleep?) && HasTodo(v) {
      var s :| 0 <= s < |v.sessions| && Todo(v.sessions[s].reader) != [];
      TodoIsDue(cb, v, e, s);
    } else if v.worker.WAsleep? {
      var s :| 0 <= s < |v.sessions| && Owes(v.sessions[s]);
      DebtIsDue(cb, v, e, s);
    } else {
      AtWorkIsDue(cb, v, e);
    }
  }

  /** A handler with messages left keeps them, or pushes one and then owes a notification, unless
      somebody else does. */
  lemma TodoIsDue(cb: Callbacks, v: Server, e: Event, s: Sid)
    requires v.worker.WNone? || v.worker.WAsleep? || e.EvWorkerSleep?
    requires s < |v.sessions| && Todo(v.sessions[s].reader) != []
    requires Positions(cb, v) && WakeUpDue(v) && Enabled(cb, v, e) && Internal(e)
    ensures Due(Step(cb, v, e))
  {
    hide PipeStep, Offered, Parse, CanTransmit, CanLand, PipeEnabled;
    var z := Step(cb, v, e);
    if e.EvPush? && e.s == s {
      PushIsDue(cb, v, s);
    } else {
      assert Todo(z.sessions[s].reader) != [];
    }
  }

  /** Behind a push onto the queue of a sleeping worker somebody owes a notification. */
  lemma PushIsDue(cb: Callbacks, v: Server, s: Sid)
    requires v.worker.WAsleep? && WakeUpDue(v) && Enabled(cb, v, EvPush(s))
    ensures SomeoneOwes(Push(v, s))
  {
    var z := Push(v, s);
    if v.queue == [] {
      assert Owes(z.sessions[s]);
    } else {
      var t :| 0 <= t < |v.sessions| && Owes(v.sessions[t]);
      assert Owes(z.sessions[t]);
    }
  }

  /** A debt stays, or is paid and wakes the worker. */
  lemma DebtIsDue(cb: Callbacks, v: Server, e: Event, s: Sid)
    requires v.worker.WAsleep? && s < |v.sessions| && Owes(v.sessions[s])
    requires Enabled(cb, v, e) && Internal(e)
    ensures Due(Step(cb, v, e))
  {
    hide PipeStep, Offered, Parse, CanTransmit, CanLand, PipeEnabled;
    assert e == EvLeave(s) || Owes(Step(cb, v, e).sessions[s]);
  }

  lemma AtWorkIsDue(cb: Callbacks, v: Server, e: Event)
    requires !v.worker.WNone? && !v.worker.WAsleep? && !v.worker.WExited? && !e.EvWorkerSleep?
    requires !Flagged(v.stop) && Positions(cb, v) && Enabled(cb, v, e) && Internal(e)
    ensures Due(Step(cb, v, e))
  {
    hide PipeStep, Offered, Parse, CanTransmit, CanLand, PipeEnabled;
  }

  /** A handler that has nothing to post can go on without the mutex. */
  lemma HandlerProgresses(cb: Callbacks, v: Server) returns (e: Event)
    requires SendLocksHeld(v) && Positions(cb, v) && v.stop.Running? && !HandlersIdle(v) && !HasTodo(v)
    ensures Enabled(cb, v, e) && Internal(e) && !e.EvWorkerSleep?
  {
    var s :| 0 <= s < |v.sessions| && !Idle(v.sessions[s]);
    assert Todo(v.sessions[s].reader) == [];
    match v.sessions[s].reader
    case Handling(_, _) => e := EvEndRead(s);
    case Leaving(_, _, _, _) => e := EvLeave(s);
    case Reading => e := EvWritePop(s);
    case NoRead => e := EvWritePop(s);
  }

  lemma DueIsNotRest(v: Server)
    requires Due(v) && v.stop.Running?
    ensures !Quiescent(v)
  {
    if HasTodo(v) {
      var s :| 0 <= s < |v.sessions| && Todo(v.sessions[s].reader) != [];
      assert !SessQuiet(v.sessions[s]);
    } else if SomeoneOwes(v) {
      var s :| 0 <= s < |v.sessions| && Owes(v.sessions[s]);
      assert !SessQuiet(v.sessions[s]);
    }
  }

  /** The next step towards the gap. */
  lemma NextToTheGap(cb: Callbacks, v: Server) returns (e: Event)
    requires Inv(cb, v) && v.stop.Running? && Due(v) && !(v.worker.WDoze? && HandlersIdle(v))
    ensures Enabled(cb, v, e) && Internal(e) && Due(Step(cb, v, e))
  {
    hide MutexHeld, SendLocksHeld, Fifo, Positions, WakeUpDue, StopSeen, Parsing, Calling, Answering, Pipes, Owned,
         Due, HasTodo, HandlersIdle, Step, Quiescent;
    if !v.worker.WDoze? {
      DueIsNotRest(v);
      e := Progress(cb, v);
      OnlyADozerSleeps(cb, v, e);
    } else if HasTodo(v) {
      e := EvWorkerSleep;
    } else {
      e := HandlerProgresses(cb, v);
    }
    DueKept(cb, v, e);
  }

  lemma OnlyADozerSleeps(cb: Callbacks, v: Server, e: Event)
    requires Enabled(cb, v, e) && !v.worker.WDoze?
    ensures !e.EvWorkerSleep?
  {}

  /** A worker that is at work, or about to be, comes to its gap with no handler running. */
  lemma ToTheGap(cb: Callbacks, v: Server) returns (own: seq<Event>, z: Server)
    requires Inv(cb, v) && v.stop.Running? && Due(v)
    ensures Run(cb, v, own, z) && (forall e <- own :: Internal(e))
    ensures z.stop.Running? && z.worker.WDoze? && HandlersIdle(z)
    decreases Work(cb, v)
  {
    hide Inv, Work, Due, HandlersIdle, Enabled, Step, Internal;
    if v.worker.WDoze? && HandlersIdle(v) {
      own, z := [], v;
    } else {
      var e := NextToTheGap(cb, v);
      StepWorks(cb, v, e);
      InvKept(cb, v, e);
      TodoShrinks(cb, v, e);
      own, z := ToTheGap(cb, Step(cb, v, e));
      RunMore(cb, v, e, own, z);
      own := [e] + own;
    }
  }

  /** So from every reachable state with a message on its way the server can run on, finish what its
      handlers have at hand, go down, and be left with the worker asleep for good. */
  lemma StopCanBeLost(cb: Callbacks, before: seq<Event>, v: Server) returns (events: seq<Event>, z: Server)
    requires Run(cb, NEW_SERVER, before, v) && v.stop.Running? && Due(v)
    ensures Run(cb, v, events, z) && z.stop.StopNotified? && z.worker.WAsleep?
    ensures forall e | Enabled(cb, z, e) :: e.EvSpurious?
    ensures |z.sessions| == |v.sessions| && (!HasTodo(v) ==> z.posted == v.posted)
  {
    ReachableInv(cb, before, v);
    hide Inv, Run, Due, HasTodo, Internal, Enabled, Step, HandlersIdle;
    var own, gap := ToTheGap(cb, v);
    SessionsStay(cb, v, own, gap);
    if !HasTodo(v) {
      NothingNewIsPosted(cb, v, own, gap);
    }
    TheGapLosesAStop(cb, gap);
    z := gap.(stop := StopNotified(WDoze), mutex := Free, worker := WAsleep);
    events := own + [EvLoopEnds, EvSetStop, EvNotifyStop, EvWorkerSleep];
    RunsCompose(cb, v, own, gap, [EvLoopEnds, EvSetStop, EvNotifyStop, EvWorkerSleep], z);
  }

  lemma {:induction false} SessionsStay(cb: Callbacks, v: Server, own: seq<Event>, z: Server)
    requires Run(cb, v, own, z) && forall e <- own :: Internal(e)
    ensures |z.sessions| == |v.sessions|
    decreases |own|
  {
    hide Enabled, Step, Internal, HasTodo;
    if own != [] {
      assert own[0] in own;
      TodoShrinks(cb, v, own[0]);
      SessionsStay(cb, Step(cb, v, own[0]), own[1..], z);
    }
  }

  /** The first steps of every server: a session, its first message `f`, and with it the worker. */
  lemma FirstMessage(cb: Callbacks, f: Frame) returns (events: seq<Event>, v: Server)
    requires Legal(Tlv, f) && |Encode(Tlv, f)| <= MAX_LENGTH
    ensures Run(cb, NEW_SERVER, events, v)
    ensures v == NEW_SERVER.(sessions := [Sess(Encode(Tlv, f), Posting([f], false), EMPTY_PIPE, Free, true, 3)],
                             worker := WStart)
  {
    var chunk := Encode(Tlv, f);
    assert chunk + [] == chunk && [] + chunk == chunk;
    assert Parse(Tlv, []) == Parsed([], [], NeedMore);
    ParseEncoded(Tlv, f, []);
    hide Parse, Encode, Run;
    assert Parse(Tlv, chunk) == Parsed([f], [], NeedMore);
    NoStepsYet(cb);
    var v1 := Step(cb, NEW_SERVER, EvAccept);
    var v2 := Step(cb, v1, EvReadDone(0, chunk));
    v := Step(cb, v2, EvMakeNode(0));
    RunOne(cb, NEW_SERVER, [], NEW_SERVER, EvAccept);
    RunOne(cb, NEW_SERVER, [] + [EvAccept], v1, EvReadDone(0, chunk));
    RunOne(cb, NEW_SERVER, [] + [EvAccept] + [EvReadDone(0, chunk)], v2, EvMakeNode(0));
    events := [] + [EvAccept] + [EvReadDone(0, chunk)] + [EvMakeNode(0)];
  }

  lemma NoStepsYet(cb: Callbacks)
    ensures Run(cb, NEW_SERVER, [], NEW_SERVER)
  {}

  /** A handler posts the message it has at hand. */
  lemma PostIt(cb: Callbacks, before: seq<Event>, v: Server) returns (events: seq<Event>, z: Server)
    requires Run(cb, NEW_SERVER, before, v)
    requires v.stop.Running? && |v.sessions| == 1
    requires v.sessions[0].reader.Posting? && |v.sessions[0].reader.todo| == 1 && v.mutex == Free
    ensures Run(cb, NEW_SERVER, events, z) && |z.sessions| == 1 && !HasTodo(z)
    ensures var n := Task(0, v.sessions[0].reader.todo[0]);
            z.queue == v.queue + [n] && z.posted == v.posted + [n] && z.worker == v.worker && z.stop == v.stop
  {
    hide Run, PipeStep, Parse;
    var y := Step(cb, v, EvPostLock(0));
    z := Step(cb, y, EvPush(0));
    RunOne(cb, NEW_SERVER, before, v, EvPostLock(0));
    RunOne(cb, NEW_SERVER, before + [EvPostLock(0)], y, EvPush(0));
    events := before + [EvPostLock(0)] + [EvPush(0)];
  }

  /** Such a run from the start, whatever the first message is: a session is accepted, its message
      received, posted and popped (and answered if somebody is registered for it), its handlers and
      then the event loop end, and the worker sleeps behind a notified stop with nobody left to wake
      it. */
  lemma StopNotificationCanBeLost(cb: Callbacks, f: Frame) returns (events: seq<Event>, v: Server)
    requires Legal(Tlv, f) && |Encode(Tlv, f)| <= MAX_LENGTH
    ensures Run(cb, NEW_SERVER, events, v)
    ensures v.stop.StopNotified? && v.worker.WAsleep? && HandlersIdle(v)
    ensures |v.sessions| == 1 && v.posted == v.taken == [Task(0, f)]
    ensures forall e | Enabled(cb, v, e) :: e.EvSpurious?
  {
    hide Run, Inv, Encode, Quiescent, HasTodo, PipeStep, Parse, Legal, Enabled, HandlersIdle, AllHandled;
    var y;
    events, y := FirstMessage(cb, f);
    events, y := PostIt(cb, events, y);
    var rest, z := StopCanBeLost(cb, events, y);
    RunsCompose(cb, NEW_SERVER, events, y, rest, z);
    events, v := events + rest, z;
    SleepersHaveFinished(cb, events, v);
  }

  /** A worker asleep behind the event loop has popped everything. */
  lemma SleepersHaveFinished(cb: Callbacks, events: seq<Event>, v: Server)
    requires Run(cb, NEW_SERVER, events, v) && v.worker.WAsleep? && !v.stop.Running?
    ensures v.taken == v.posted && HandlersIdle(v)
  {
    ReachableInv(cb, events, v);
    assert forall s | 0 <= s < |v.sessions| :: !Owes(v.sessions[s]) by {
      assert forall s | 0 <= s < |v.sessions| :: Idle(v.sessions[s]);
    }
    assert v.taken + [] == v.taken;
  }
}
