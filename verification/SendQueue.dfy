/** The locked send queue with one outstanding async_send: `Send` and `HandleWrite` of the logic
    servers (`Tlv`) and of AsyncEchoServer2 and JsonServer (`Lv`).

    `Pipe` is the queue together with its surroundings: the async_send operations the socket still
    works on, the completion handlers that are due, and the bytes on the wire.  Nothing in its steps
    says that there is at most one operation; that is `SingleOutstandingSend`. */
module SendQueues {
  import opened Codec
  import opened MsgNodes
  import opened Sessions

  const MAX_SENDQUE_SIZE: nat := 1024

  /** An async_send the socket has not completed, and how many of its bytes are on the wire. */
  datatype Flight = Flight(frame: Frame, sent: nat)

  /** One call of Send, the queue length it met, and whether it was taken. */
  datatype Offer = Offer(frame: Frame, met: nat, taken: bool)

  datatype Pipe = Pipe(
    queue: seq<Frame>,
    flights: seq<Flight>,
    landed: nat,           // successful completions whose handler has not popped yet
    failed: bool,          // some completion reported an error
    offers: seq<Offer>,    // every call of Send
    done: seq<Frame>,      // frames popped by a completion handler
    wire: seq<Byte>)

  const EMPTY_PIPE := Pipe([], [], 0, false, [], [], [])

  // ---------------------------------------------------------------- steps

  function StartFront(p: Pipe): Pipe
    requires p.queue != []
  {
    p.(flights := p.flights + [Flight(p.queue[0], 0)])
  }

  /** Send: refused above the size limit; the send that finds the queue empty starts the socket. */
  function Offered(p: Pipe, f: Frame): Pipe {
    var taken := |p.queue| <= MAX_SENDQUE_SIZE;
    var q := p.(offers := p.offers + [Offer(f, |p.queue|, taken)]);
    if !taken then q
    else
      var r := q.(queue := p.queue + [f]);
      if |p.queue| > 0 then r else StartFront(r)
  }

  predicate CanTransmit(fmt: Format, p: Pipe, i: nat, k: nat) {
    i < |p.flights| && p.flights[i].sent + k <= |Encode(fmt, p.flights[i].frame)|
  }

  /** The socket puts the next `k` bytes of operation `i` on the wire. */
  function Transmitted(fmt: Format, p: Pipe, i: nat, k: nat): Pipe
    requires CanTransmit(fmt, p, i, k)
  {
    var Flight(f, sent) := p.flights[i];
    p.(wire := p.wire + Encode(fmt, f)[sent..sent + k], flights := p.flights[i := Flight(f, sent + k)])
  }

  function Without<T>(s: seq<T>, i: nat): seq<T>
    requires i < |s|
  {
    s[..i] + s[i + 1..]
  }

  predicate CanLand(fmt: Format, p: Pipe, i: nat) {
    i < |p.flights| && p.flights[i].sent == |Encode(fmt, p.flights[i].frame)|
  }

  /** async_send completes without error only when its whole buffer is written. */
  function Landed(fmt: Format, p: Pipe, i: nat): Pipe
    requires CanLand(fmt, p, i)
  {
    p.(flights := Without(p.flights, i), landed := p.landed + 1)
  }

  /** HandleWrite without error: pop, and start the next send if there is one. */
  function Popped(p: Pipe): Pipe
    requires p.landed > 0 && p.queue != []
  {
    var q := p.(landed := p.landed - 1, done := p.done + [p.queue[0]], queue := p.queue[1..]);
    if q.queue == [] then q else StartFront(q)
  }

  /** HandleWrite with an error: the queue is left alone. */
  function Failed(p: Pipe, i: nat): Pipe
    requires i < |p.flights|
  {
    p.(flights := Without(p.flights, i), failed := true)
  }

  // ---------------------------------------------------------------- the invariant

  function TakenFrames(offers: seq<Offer>): seq<Frame> {
    if offers == [] then []
    else
      var o := offers[|offers| - 1];
      TakenFrames(offers[..|offers| - 1]) + if o.taken then [o.frame] else []
  }

  function OfferedFrames(offers: seq<Offer>): seq<Frame> {
    if offers == [] then []
    else OfferedFrames(offers[..|offers| - 1]) + [offers[|offers| - 1].frame]
  }

  function RefusedCount(offers: seq<Offer>): nat {
    if offers == [] then 0
    else RefusedCount(offers[..|offers| - 1]) + if offers[|offers| - 1].taken then 0 else 1
  }

  /** At most one operation or due handler, namely one for the front node whenever the queue is
      non-empty and no write has failed. */
  predicate OneAtATime(p: Pipe) {
    && |p.flights| + p.landed == (if p.queue == [] || p.failed then 0 else 1)
    && (p.failed ==> p.queue != [])
    && (p.flights != [] ==> p.flights[0].frame == p.queue[0])
  }

  /** The wire holds the popped frames and then a part of the front frame: what its operation has
      sent, or all of it once the operation is through. */
  predicate WireInOrder(fmt: Format, p: Pipe) {
    var before := EncodeAll(fmt, p.done);
    && (p.queue == [] ==> p.wire == before)
    && (p.queue != [] ==>
          var front := Encode(fmt, p.queue[0]);
          && before <= p.wire <= before + front
          && (p.flights != [] ==>
                p.flights[0].sent <= |front| && p.wire == before + front[..p.flights[0].sent])
          && (p.landed > 0 ==> p.wire == before + front))
    && (forall a <- p.flights :: a.sent <= |Encode(fmt, a.frame)|)
  }

  predicate Accounted(p: Pipe) {
    && |p.queue| <= MAX_SENDQUE_SIZE + 1
    && TakenFrames(p.offers) == p.done + p.queue
    && (forall o <- p.offers :: o.met <= MAX_SENDQUE_SIZE + 1 && (o.taken <==> o.met <= MAX_SENDQUE_SIZE))
  }

  predicate PipeOk(fmt: Format, p: Pipe) {
    OneAtATime(p) && WireInOrder(fmt, p) && Accounted(p)
  }

  lemma OfferKeeps(fmt: Format, p: Pipe, f: Frame)
    requires PipeOk(fmt, p)
    ensures PipeOk(fmt, Offered(p, f))
  {
    var q := Offered(p, f);
    assert q.offers[..|p.offers|] == p.offers;
    assert p.done + (p.queue + [f]) == (p.done + p.queue) + [f];
  }

  lemma TransmitKeeps(fmt: Format, p: Pipe, i: nat, k: nat)
    requires PipeOk(fmt, p) && CanTransmit(fmt, p, i, k)
    ensures PipeOk(fmt, Transmitted(fmt, p, i, k))
  {
    MoreOfABuffer(EncodeAll(fmt, p.done), Encode(fmt, p.queue[0]), p.flights[0].sent, k);
    hide EncodeAll, Encode, TakenFrames;
  }

  lemma LandKeeps(fmt: Format, p: Pipe, i: nat)
    requires PipeOk(fmt, p) && CanLand(fmt, p, i)
    ensures PipeOk(fmt, Landed(fmt, p, i))
  {
    var front := Encode(fmt, p.queue[0]);
    assert front[..|front|] == front;
  }

  lemma PopKeeps(fmt: Format, p: Pipe)
    requires PipeOk(fmt, p) && p.landed > 0
    ensures p.queue != [] && PipeOk(fmt, Popped(p))
  {
    var q := Popped(p);
    EncodeAllAppend(fmt, p.done, [p.queue[0]]);
    EncodeAllOne(fmt, p.queue[0]);
    assert p.done + p.queue == q.done + q.queue;
    if q.queue != [] {
      assert Encode(fmt, q.queue[0])[..0] == [];
    }
  }

  lemma FailKeeps(fmt: Format, p: Pipe, i: nat)
    requires PipeOk(fmt, p) && i < |p.flights|
    ensures PipeOk(fmt, Failed(p, i))
  {}

  // ---------------------------------------------------------------- runs

  datatype PipeEvent =
    | Offering(f: Frame)
    | Transmitting(i: nat, k: nat)
    | Landing(i: nat)
    | Popping
    | Failing(i: nat)

  predicate PipeEnabled(fmt: Format, p: Pipe, e: PipeEvent) {
    match e
    case Offering(_) => true
    case Transmitting(i, k) => CanTransmit(fmt, p, i, k)
    case Landing(i) => CanLand(fmt, p, i)
    case Popping => p.landed > 0
    case Failing(i) => i < |p.flights|
  }

  /** A handler that pops an empty queue would be undefined in C++; here it leaves the state alone,
      and `PopKeeps` shows that it never happens. */
  function PipeStep(fmt: Format, p: Pipe, e: PipeEvent): Pipe
    requires PipeEnabled(fmt, p, e)
  {
    match e
    case Offering(f) => Offered(p, f)
    case Transmitting(i, k) => Transmitted(fmt, p, i, k)
    case Landing(i) => Landed(fmt, p, i)
    case Popping => if p.queue == [] then p else Popped(p)
    case Failing(i) => Failed(p, i)
  }

  /** `q` is reached from `p` by these events. */
  ghost predicate PipeRun(fmt: Format, p: Pipe, events: seq<PipeEvent>, q: Pipe)
    decreases |events|
  {
    if events == [] then p == q
    else PipeEnabled(fmt, p, events[0]) && PipeRun(fmt, PipeStep(fmt, p, events[0]), events[1..], q)
  }

  lemma PipeStepKeeps(fmt: Format, p: Pipe, e: PipeEvent)
    requires PipeOk(fmt, p) && PipeEnabled(fmt, p, e)
    ensures PipeOk(fmt, PipeStep(fmt, p, e))
  {
    match e
    case Offering(f) => OfferKeeps(fmt, p, f);
    case Transmitting(i, k) => TransmitKeeps(fmt, p, i, k);
    case Landing(i) => LandKeeps(fmt, p, i);
    case Popping => PopKeeps(fmt, p);
    case Failing(i) => FailKeeps(fmt, p, i);
  }

  lemma {:induction false} PipeRunKeeps(fmt: Format, p: Pipe, events: seq<PipeEvent>, q: Pipe)
    requires PipeOk(fmt, p) && PipeRun(fmt, p, events, q)
    ensures PipeOk(fmt, q)
    decreases |events|
  {
    if events != [] {
      PipeStepKeeps(fmt, p, events[0]);
      PipeRunKeeps(fmt, PipeStep(fmt, p, events[0]), events[1..], q);
    }
  }

  /** In every run: while no write has failed, exactly one operation or due handler exists when the
      queue is non-empty, and none when it is empty; the operation carries the front frame. */
  lemma SingleOutstandingSend(fmt: Format, events: seq<PipeEvent>, p: Pipe)
    requires PipeRun(fmt, EMPTY_PIPE, events, p)
    ensures |p.flights| + p.landed <= 1
    ensures !p.failed ==> (p.queue != [] <==> |p.flights| + p.landed == 1)
    ensures p.failed <==> exists i :: Failing(i) in events
    ensures p.flights != [] ==> p.queue != [] && p.flights == [Flight(p.queue[0], p.flights[0].sent)]
  {
    hide PipeRun;
    PipeRunKeeps(fmt, EMPTY_PIPE, events, p);
    PipeHistory(fmt, EMPTY_PIPE, events, p);
  }

  /** A queue in front of an unfailed socket: its write handler is due, or its one operation can write
      any part of what is missing, complete if and only if nothing is missing, and break at any time. */
  lemma WhateverTheSocketDoes(fmt: Format, p: Pipe, k: nat)
    requires PipeOk(fmt, p) && p.queue != [] && !p.failed
    ensures PipeEnabled(fmt, p, Popping) <==> p.flights == []
    ensures PipeEnabled(fmt, p, Failing(0)) <==> p.flights != []
    ensures p.flights != [] ==>
              var missing := |Encode(fmt, p.queue[0])| - p.flights[0].sent;
              && (PipeEnabled(fmt, p, Transmitting(0, k)) <==> k <= missing)
              && (PipeEnabled(fmt, p, Landing(0)) <==> missing == 0)
  {}

  /** The frames given to Send in a run. */
  function Sends(events: seq<PipeEvent>): seq<Frame> {
    if events == [] then [] else (if events[0].Offering? then [events[0].f] else []) + Sends(events[1..])
  }

  lemma PipeStepHistory(fmt: Format, p: Pipe, e: PipeEvent)
    requires PipeEnabled(fmt, p, e)
    ensures OfferedFrames(PipeStep(fmt, p, e).offers)
            == OfferedFrames(p.offers) + if e.Offering? then [e.f] else []
    ensures PipeStep(fmt, p, e).failed <==> p.failed || e.Failing?
  {
    if e.Offering? {
      assert Offered(p, e.f).offers[..|p.offers|] == p.offers;
    }
  }

  lemma {:induction false} PipeHistory(fmt: Format, p: Pipe, events: seq<PipeEvent>, q: Pipe)
    requires PipeRun(fmt, p, events, q)
    ensures OfferedFrames(q.offers) == OfferedFrames(p.offers) + Sends(events)
    ensures q.failed <==> p.failed || exists i :: Failing(i) in events
    decreases |events|
  {
    hide PipeStep, PipeEnabled, OfferedFrames;
    if events == [] {
      assert OfferedFrames(p.offers) + [] == OfferedFrames(p.offers);
    } else {
      PipeStepHistory(fmt, p, events[0]);
      PipeHistory(fmt, PipeStep(fmt, p, events[0]), events[1..], q);
      assert events == [events[0]] + events[1..];
      Associative(OfferedFrames(p.offers), if events[0].Offering? then [events[0].f] else [], Sends(events[1..]));
    }
  }

  /** Once a write has failed nothing is sent or popped any more; sends only fill the queue. */
  lemma {:induction false} NothingIsSentAfterAFailure(fmt: Format, p: Pipe, events: seq<PipeEvent>, q: Pipe)
    requires PipeOk(fmt, p) && p.failed && PipeRun(fmt, p, events, q)
    ensures q.failed && q.flights == [] && q.landed == 0
    ensures q.wire == p.wire && q.done == p.done && p.queue <= q.queue
    decreases |events|
  {
    if events != [] {
      PipeStepKeeps(fmt, p, events[0]);
      NothingIsSentAfterAFailure(fmt, PipeStep(fmt, p, events[0]), events[1..], q);
    }
  }

  /** Back-pressure: the queue holds at most one frame more than the limit; a send is refused exactly
      when it meets that size; and the sends taken, in order, are those popped and those queued. */
  lemma BackPressureAccounting(fmt: Format, events: seq<PipeEvent>, p: Pipe)
    requires PipeRun(fmt, EMPTY_PIPE, events, p)
    ensures |p.queue| <= 1025
    ensures forall o <- p.offers :: !o.taken <==> o.met == 1025
    ensures OfferedFrames(p.offers) == Sends(events)
    ensures TakenFrames(p.offers) == p.done + p.queue
    ensures |p.offers| == RefusedCount(p.offers) + |p.done| + |p.queue|
  {
    PipeRunKeeps(fmt, EMPTY_PIPE, events, p);
    PipeHistory(fmt, EMPTY_PIPE, events, p);
    assert OfferedFrames([]) + Sends(events) == Sends(events);
    CountOffers(p.offers);
  }

  lemma {:induction false} CountOffers(offers: seq<Offer>)
    ensures |offers| == RefusedCount(offers) + |TakenFrames(offers)|
    ensures RefusedCount(offers) == 0 ==> TakenFrames(offers) == OfferedFrames(offers)
  {
    if offers != [] {
      CountOffers(offers[..|offers| - 1]);
    }
  }

  /** The wire never holds anything but the encodings of the sends taken, in order, up to some
      point; once the queue is empty it holds all of them. */
  lemma WireIsAPrefix(fmt: Format, p: Pipe)
    requires PipeOk(fmt, p)
    ensures p.wire <= EncodeAll(fmt, TakenFrames(p.offers))
    ensures p.queue == [] ==> p.wire == EncodeAll(fmt, TakenFrames(p.offers))
  {
    EncodeAllAppend(fmt, p.done, p.queue);
    if p.queue == [] {
      assert p.done + p.queue == p.done;
    } else {
      Associative(EncodeAll(fmt, p.done), Encode(fmt, p.queue[0]), EncodeAll(fmt, p.queue[1..]));
    }
  }

  /** Only Send makes the queue longer, and it refuses nothing below the limit. */
  lemma PipeOfferStep(fmt: Format, p: Pipe, e: PipeEvent)
    requires PipeEnabled(fmt, p, e)
    ensures |PipeStep(fmt, p, e).queue| <= |p.queue| + if e.Offering? then 1 else 0
    ensures !e.Offering? || |p.queue| <= MAX_SENDQUE_SIZE ==>
              RefusedCount(PipeStep(fmt, p, e).offers) == RefusedCount(p.offers)
  {
    if e.Offering? {
      assert Offered(p, e.f).offers[..|p.offers|] == p.offers;
    }
  }

  // ---------------------------------------------------------------- work left

  /** Steps to get one queued frame onto the wire and popped, taking the lock included. */
  function FrameWork(fmt: Format, f: Frame): nat {
    |Encode(fmt, f)| + 3
  }

  function FramesWork(fmt: Format, fs: seq<Frame>): nat {
    if fs == [] then 0 else FrameWork(fmt, fs[0]) + FramesWork(fmt, fs[1..])
  }

  /** Steps the pipeline still has to take; `locked` says that a due handler has its lock already. */
  function SendWork(fmt: Format, p: Pipe, locked: bool): nat {
    if p.failed || p.queue == [] then 0
    else
      FramesWork(fmt, p.queue[1..])
      + if p.landed > 0 then if locked then 1 else 2
        else if p.flights != [] && p.flights[0].sent <= |Encode(fmt, p.queue[0])|
        then FrameWork(fmt, p.queue[0]) - p.flights[0].sent
        else FrameWork(fmt, p.queue[0])
  }

  lemma {:induction false} FramesWorkOne(fmt: Format, fs: seq<Frame>, f: Frame)
    ensures FramesWork(fmt, fs + [f]) == FramesWork(fmt, fs) + FrameWork(fmt, f)
  {
    hide FrameWork;
    if fs == [] {
      assert (fs + [f])[1..] == [];
    } else {
      FramesWorkOne(fmt, fs[1..], f);
      assert (fs + [f])[1..] == fs[1..] + [f];
    }
  }

  /** A send costs the pipeline at most the work its frame brings. */
  lemma OfferWorks(fmt: Format, p: Pipe, f: Frame, locked: bool)
    requires PipeOk(fmt, p)
    ensures SendWork(fmt, Offered(p, f), locked) <= SendWork(fmt, p, locked) + FrameWork(fmt, f)
  {
    if p.queue != [] && |p.queue| <= MAX_SENDQUE_SIZE {
      assert Offered(p, f).queue[1..] == p.queue[1..] + [f];
      FramesWorkOne(fmt, p.queue[1..], f);
    }
  }

  /** A step of the socket or of the write handler that is no failure and makes some progress. */
  predicate Forward(e: PipeEvent) {
    (e.Transmitting? && e.k > 0) || e.Landing? || e.Popping?
  }

  /** Transmitting, landing and popping each bring the front frame closer to its end. */
  lemma PipeStepWorks(fmt: Format, p: Pipe, e: PipeEvent, locked: bool, after: bool)
    requires PipeOk(fmt, p) && PipeEnabled(fmt, p, e) && Forward(e)
    requires if e.Popping? then locked else after == locked
    ensures SendWork(fmt, PipeStep(fmt, p, e), after) < SendWork(fmt, p, locked)
  {
    if e.Popping? {
      PopKeeps(fmt, p);
    }
  }

  /** A pipeline that has something to send can take such a step. */
  lemma PipeProgresses(fmt: Format, p: Pipe) returns (e: PipeEvent)
    requires PipeOk(fmt, p) && p.queue != [] && !p.failed
    ensures PipeEnabled(fmt, p, e) && Forward(e)
  {
    e := if p.landed > 0 then Popping
         else if CanLand(fmt, p, 0) then Landing(0) else Transmitting(0, 1);
  }

  // ---------------------------------------------------------------- the class

  /** The sending side of a session.  Each method body is one critical section of `_send_lock`. */
  class SendSide {
    const fmt: Format
    const uuid: string
    const server: CServer
    var sendQueue: seq<MsgNode>
    /** The buffers of the async_send operations started and not yet completed. */
    var inFlight: seq<MsgNode>
    ghost var pipe: Pipe

    ghost static predicate Encodes(fmt: Format, n: MsgNode, f: Frame)
      reads n.data
    {
      n.totalLen <= n.data.Length && n.data[..n.totalLen] == Encode(fmt, f)
    }

    /** The nodes carry the encodings of the abstract queue, and an operation carries the front node
        itself. */
    ghost predicate Valid()
      reads this, set n | n in sendQueue :: n.data
    {
      && PipeOk(fmt, pipe)
      && |sendQueue| == |pipe.queue|
      && (forall i | 0 <= i < |sendQueue| :: Encodes(fmt, sendQueue[i], pipe.queue[i]))
      && inFlight == if pipe.flights == [] then [] else [sendQueue[0]]
    }

    constructor (fmt: Format, uuid: string, server: CServer)
      ensures Valid() && pipe == EMPTY_PIPE && sendQueue == []
      ensures this.fmt == fmt && this.uuid == uuid && this.server == server
    {
      this.fmt, this.uuid, this.server := fmt, uuid, server;
      this.sendQueue, this.inFlight, this.pipe := [], [], EMPTY_PIPE;
    }

    method AsyncSend(n: MsgNode)
      modifies this`inFlight
      ensures inFlight == old(inFlight) + [n]
    {
      inFlight := inFlight + [n];
    }

    /** Both overloads of Send. */
    method Send(f: Frame)
      requires Valid()
      modifies this`sendQueue, this`inFlight, this`pipe
      ensures Valid() && pipe == Offered(old(pipe), f)
      ensures forall n <- sendQueue :: n in old(sendQueue) || (fresh(n) && fresh(n.data))
      ensures old(|sendQueue|) == MAX_SENDQUE_SIZE + 1 ==> sendQueue == old(sendQueue) && inFlight == old(inFlight)
      ensures old(|sendQueue|) <= MAX_SENDQUE_SIZE ==>
                && |sendQueue| == old(|sendQueue|) + 1 && old(sendQueue) <= sendQueue
                && Encodes(fmt, sendQueue[|sendQueue| - 1], f)
                && inFlight == if old(sendQueue) == [] then sendQueue else old(inFlight)
    {
      hide WireInOrder, Accounted, Encode;
      OfferKeeps(fmt, pipe, f);
      pipe := Offered(pipe, f);
      var sendQueueSize := |sendQueue|;
      if sendQueueSize > MAX_SENDQUE_SIZE {
        return;
      }
      var node := new MsgNode.ForSending(fmt, f);
      sendQueue := sendQueue + [node];
      if sendQueueSize > 0 {
        return;
      }
      AsyncSend(sendQueue[0]);
    }

    /** The socket writes part of the front buffer. */
    ghost method Transmit(k: nat)
      requires Valid() && CanTransmit(fmt, pipe, 0, k)
      modifies this`pipe
      ensures Valid() && pipe == Transmitted(fmt, old(pipe), 0, k)
    {
      TransmitKeeps(fmt, pipe, 0, k);
      pipe := Transmitted(fmt, pipe, 0, k);
    }

    /** The completion handler of async_send. */
    method HandleWrite(error: bool)
      requires Valid() && pipe.flights != []
      requires !error ==> CanLand(fmt, pipe, 0)
      modifies this`sendQueue, this`inFlight, this`pipe, server`sessions
      ensures Valid()
      ensures pipe == if error then Failed(old(pipe), 0) else Popped(Landed(fmt, old(pipe), 0))
      ensures sendQueue == if error then old(sendQueue) else old(sendQueue)[1..]
      ensures inFlight == if error || |old(sendQueue)| == 1 then [] else [old(sendQueue)[1]]
      ensures server.sessions == if error then old(server.sessions) - {uuid} else old(server.sessions)
    {
      hide WireInOrder, Accounted, Encode;
      inFlight := inFlight[1..];
      if !error {
        LandKeeps(fmt, pipe, 0);
        PopKeeps(fmt, Landed(fmt, pipe, 0));
        pipe := Popped(Landed(fmt, pipe, 0));
        sendQueue := sendQueue[1..];
        if sendQueue != [] {
          AsyncSend(sendQueue[0]);
        }
      } else {
        FailKeeps(fmt, pipe, 0);
        pipe := Failed(pipe, 0);
        server.ClearSession(uuid);
      }
    }
  }
}
