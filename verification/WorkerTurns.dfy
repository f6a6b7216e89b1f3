/** The steps of the worker that `Servers` interleaves with everything else amount to the critical
    sections of the code: nothing comes in between, as far as the logic queue is concerned. */
module WorkerTurns {
  import opened Codec
  import opened LogicQueues
  import opened SendQueues
  import opened Servers
  import opened ServerInvariants
  import opened ServerTheorems

  /** A run in which the worker stays at such positions until the last step, and then leaves them. */
  ghost predicate RunWhile(cb: Callbacks, p: WorkerPc -> bool, v: Server, events: seq<Event>, z: Server)
    decreases |events|
  {
    && events != [] && p(v.worker) && Enabled(cb, v, events[0])
    && var y := Step(cb, v, events[0]);
    if |events| == 1 then y == z && !p(z.worker)
    else RunWhile(cb, p, y, events[1..], z)
  }

  /** What the worker's turn at the front message will make of the logic queue. */
  function TurnResult(cb: Callbacks, v: Server): Logic<Sid>
    requires v.queue != []
  {
    if v.worker.WFront? then Handled(cb.Keys, LogicOf(v)) else FrontPopped(LogicOf(v))
  }

  /** While the worker holds the mutex, the steps of everybody else leave the logic queue and the
      worker's place alone. */
  lemma OthersWait(cb: Callbacks, v: Server, e: Event)
    requires MutexHeld(v) && WorkerHolds(v.worker) && Enabled(cb, v, e)
    requires OfTheLoop(e) || e.EvSpurious? || e.EvLoopEnds? || e.EvSetStop? || e.EvNotifyStop?
    ensures LogicOf(Step(cb, v, e)) == LogicOf(v) && Step(cb, v, e).worker == v.worker
  {
    hide PipeStep, Offered, Parse, CanTransmit, CanLand, PipeEnabled;
  }

  lemma TurnStep(cb: Callbacks, v: Server, e: Event)
    requires MutexHeld(v) && Positions(cb, v) && AtFront(v.worker) && Enabled(cb, v, e)
    ensures var z := Step(cb, v, e);
            if AtFront(z.worker)
            then z.queue != [] && TurnResult(cb, z) == TurnResult(cb, v) && z.worker.drain == v.worker.drain
            else LogicOf(z) == TurnResult(cb, v) && z.worker == if v.worker.drain then WDrain else WStart
  {
    assert v.queue != [];
    if OfTheLoop(e) || e.EvSpurious? || e.EvLoopEnds? || e.EvSetStop? || e.EvNotifyStop? {
      OthersWait(cb, v, e);
      hide Step, Enabled, MutexHeld;
    } else {
      hide PipeStep, Offered, Parse, MutexHeld;
    }
  }

  lemma {:induction false} TurnRun(cb: Callbacks, v: Server, events: seq<Event>, z: Server)
    requires Inv(cb, v) && RunWhile(cb, AtFront, v, events, z)
    ensures v.queue != [] && LogicOf(z) == TurnResult(cb, v)
    ensures z.worker == if v.worker.drain then WDrain else WStart
    decreases |events|
  {
    assert HasFront(v);
    TurnStep(cb, v, events[0]);
    InvKept(cb, v, events[0]);
    if |events| > 1 {
      hide Inv, TurnResult, Step, Enabled;
      TurnRun(cb, Step(cb, v, events[0]), events[1..], z);
    }
  }

  /** From looking at the front message to having popped it: whatever readers, writers and the
      destructor do in the meantime, the logic queue changes exactly as `HandleFront` changes it. */
  lemma OneTurnIsHandleFront(cb: Callbacks, before: seq<Event>, v: Server, events: seq<Event>, z: Server)
    requires Run(cb, NEW_SERVER, before, v) && v.worker.WFront? && RunWhile(cb, AtFront, v, events, z)
    ensures v.queue != [] && LogicOf(z) == Handled(cb.Keys, LogicOf(v))
    ensures z.worker == if v.worker.drain then WDrain else WStart
  {
    ReachableInv(cb, before, v);
    TurnRun(cb, v, events, z);
  }

  /** What a draining worker will make of the logic queue. */
  function DrainResult(cb: Callbacks, v: Server): Logic<Sid>
    requires AtFront(v.worker) ==> v.queue != []
  {
    Drained(cb.Keys, if AtFront(v.worker) then TurnResult(cb, v) else LogicOf(v))
  }

  lemma DrainingStep(cb: Callbacks, v: Server, e: Event)
    requires MutexHeld(v) && Fifo(v) && Positions(cb, v) && Draining(v.worker) && Enabled(cb, v, e)
    ensures var z := Step(cb, v, e);
            if Draining(z.worker)
            then (AtFront(z.worker) ==> z.queue != []) && DrainResult(cb, z) == DrainResult(cb, v)
            else LogicOf(z) == DrainResult(cb, v) && z.worker.WExited?
  {
    if AtFront(v.worker) {
      TurnStep(cb, v, e);
      hide Step, TurnResult;
    } else {
      DrainTestStep(cb, v, e);
    }
  }

  lemma DrainTestStep(cb: Callbacks, v: Server, e: Event)
    requires MutexHeld(v) && v.worker.WDrain? && Enabled(cb, v, e)
    ensures var z := Step(cb, v, e);
            && LogicOf(z) == LogicOf(v)
            && (z.worker == if !e.EvWorkerDrainTest? then WDrain else if v.queue == [] then WExited else WFront(true))
  {
    if !e.EvWorkerDrainTest? {
      OthersWait(cb, v, e);
    }
  }

  lemma {:induction false} DrainRun(cb: Callbacks, v: Server, events: seq<Event>, z: Server)
    requires Inv(cb, v) && RunWhile(cb, Draining, v, events, z)
    ensures AtFront(v.worker) ==> v.queue != []
    ensures LogicOf(z) == DrainResult(cb, v) && z.worker.WExited?
    decreases |events|
  {
    assert AtFront(v.worker) ==> HasFront(v);
    DrainingStep(cb, v, events[0]);
    InvKept(cb, v, events[0]);
    if |events| > 1 {
      hide Inv, DrainResult, Step, Enabled;
      DrainRun(cb, Step(cb, v, events[0]), events[1..], z);
    }
  }

  /** From a seen stop to the end of the worker: the logic queue changes exactly as `Drain` changes
      it, so that everything posted so far has been popped and every registered message among it
      called back once, in order. */
  lemma StoppedWorkerDrains(cb: Callbacks, before: seq<Event>, v: Server, events: seq<Event>, z: Server)
    requires Run(cb, NEW_SERVER, before, v) && v.worker.WDrain? && RunWhile(cb, Draining, v, events, z)
    ensures z.worker.WExited? && LogicOf(z) == Drained(cb.Keys, LogicOf(v))
    ensures z.queue == [] && z.taken == z.posted == v.posted
    ensures z.calls == v.calls + Registered(cb.Keys, v.queue)
  {
    ReachableInv(cb, before, v);
    DrainRun(cb, v, events, z);
    DrainedIsAll(cb.Keys, LogicOf(v));
  }
}
