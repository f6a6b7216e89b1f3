/** The servers that answer in the read handler: JsonServer's exact-read pair `HandleReadHead` /
    `HandleReadMsg`, which echoes every message, on top of the locked send queue.

    `Echo` is one such session with its surroundings: the bytes that have arrived on its socket, the
    read operation in progress, and its send pipeline.  async_read completes only when the number of
    bytes it was asked for has arrived. */
module Echoes {
  import opened Codec
  import opened SendQueues
  import opened MsgNodes

  /** The read in progress: a header, the body of an accepted header, or none any more. */
  datatype Want = WantHead | WantBody(id: Short, len: nat) | Closed(refused: bool)

  datatype Echo = Echo(
    arrived: seq<Byte>,
    used: nat,               // bytes taken by completed reads
    want: Want,
    delivered: seq<Frame>,   // messages handed to HandleReadMsg
    pipe: Pipe)

  const NEW_ECHO := Echo([], 0, WantHead, [], EMPTY_PIPE)

  // ---------------------------------------------------------------- steps

  function Wanted(want: Want): nat {
    match want
    case WantHead => Lv.HeadLen()
    case WantBody(_, len) => len
    case Closed(_) => 0
  }

  /** The read in progress has all the bytes it waits for. */
  predicate CanRead(e: Echo) {
    !e.want.Closed? && e.used + Wanted(e.want) <= |e.arrived|
  }

  function Bytes(e: Echo): seq<Byte>
    requires CanRead(e)
  {
    e.arrived[e.used..e.used + Wanted(e.want)]
  }

  /** HandleReadHead: an oversized length closes the session, any other starts the body read. */
  function HeadRead(e: Echo): Echo
    requires e.want.WantHead? && CanRead(e) && !CheckHead(Lv, Bytes(e)).Negative?
  {
    var v := CheckHead(Lv, Bytes(e));
    e.(used := e.used + Lv.HeadLen(),
       want := match v case Accept(id, len) => WantBody(id, len) case _ => Closed(true))
  }

  /** HandleReadMsg: answer, and read the next header. */
  function BodyRead(reply: Frame -> Frame, e: Echo): Echo
    requires e.want.WantBody? && CanRead(e) && |Bytes(e)| < 0x8000
  {
    var f: Frame := Packet(e.want.id, Bytes(e));
    e.(used := e.used + e.want.len,
       want := WantHead,
       delivered := e.delivered + [f],
       pipe := Offered(e.pipe, reply(f)))
  }

  datatype EchoEvent =
    | Arrive(bs: seq<Byte>)
    | ReadHead
    | ReadMsg
    | ReadError
    | Writing(w: PipeEvent)

  predicate EchoEnabled(e: Echo, ev: EchoEvent) {
    match ev
    case Arrive(_) => true
    case ReadHead => e.want.WantHead? && CanRead(e) && !CheckHead(Lv, Bytes(e)).Negative?
    case ReadMsg => e.want.WantBody? && CanRead(e) && |Bytes(e)| < 0x8000
    case ReadError => !e.want.Closed?
    case Writing(w) => !w.Offering? && PipeEnabled(Lv, e.pipe, w)
  }

  function EchoStep(reply: Frame -> Frame, e: Echo, ev: EchoEvent): Echo
    requires EchoEnabled(e, ev)
  {
    match ev
    case Arrive(bs) => e.(arrived := e.arrived + bs)
    case ReadHead => HeadRead(e)
    case ReadMsg => BodyRead(reply, e)
    case ReadError => e.(want := Closed(false))
    case Writing(w) => e.(pipe := PipeStep(Lv, e.pipe, w))
  }

  /** `z` is reached from `e` by these events. */
  ghost predicate EchoRun(reply: Frame -> Frame, e: Echo, events: seq<EchoEvent>, z: Echo)
    decreases |events|
  {
    if events == [] then e == z
    else EchoEnabled(e, events[0]) && EchoRun(reply, EchoStep(reply, e, events[0]), events[1..], z)
  }

  // ---------------------------------------------------------------- the invariant

  function Replies(reply: Frame -> Frame, fs: seq<Frame>): seq<Frame> {
    seq(|fs|, i requires 0 <= i < |fs| => reply(fs[i]))
  }

  /** The bytes taken are the encodings of the messages delivered, and then the header in hand. */
  predicate Reading(e: Echo) {
    && e.used <= |e.arrived|
    && (forall f <- e.delivered :: Legal(Lv, f))
    && var before := EncodeAll(Lv, e.delivered);
    match e.want
    case WantHead => e.arrived[..e.used] == before
    case WantBody(id, len) =>
      && e.used >= 2
      && e.arrived[..e.used - 2] == before
      && CheckHead(Lv, e.arrived[e.used - 2..e.used]) == Accept(id, len)
    case Closed(refused) =>
      && before <= e.arrived
      && (refused ==> StartsWith(Lv, e.arrived[|before|..], Refuse))
  }

  predicate EchoOk(reply: Frame -> Frame, e: Echo) {
    && Reading(e)
    && PipeOk(Lv, e.pipe)
    && OfferedFrames(e.pipe.offers) == Replies(reply, e.delivered)
  }

  lemma ArriveKeeps(e: Echo, bs: seq<Byte>)
    requires Reading(e)
    ensures Reading(e.(arrived := e.arrived + bs))
  {
    var a := e.arrived + bs;
    assert a[..e.used] == e.arrived[..e.used];
    match e.want
    case WantHead =>
    case WantBody(id, len) =>
      assert a[..e.used - 2] == e.arrived[..e.used - 2];
      assert a[e.used - 2..e.used] == e.arrived[e.used - 2..e.used];
    case Closed(refused) =>
      var n := |EncodeAll(Lv, e.delivered)|;
      assert a[n..] == e.arrived[n..] + bs;
      if refused {
        assert (e.arrived[n..] + bs)[..2] == e.arrived[n..][..2];
      }
  }

  lemma HeadKeeps(e: Echo)
    requires Reading(e) && EchoEnabled(e, ReadHead)
    ensures Reading(HeadRead(e))
  {
    hide Encode, EncodeAll, CheckHead;
    var z := HeadRead(e);
    assert e.arrived[z.used - 2..z.used] == Bytes(e);
    assert e.arrived == e.arrived[..e.used] + e.arrived[e.used..];
    assert e.arrived[e.used..][..2] == Bytes(e);
  }

  lemma MsgKeeps(reply: Frame -> Frame, e: Echo)
    requires Reading(e) && EchoEnabled(e, ReadMsg)
    ensures Reading(BodyRead(reply, e))
  {
    var z := BodyRead(reply, e);
    var head := e.arrived[e.used - 2..e.used];
    var f: Frame := Packet(e.want.id, Bytes(e));
    FrameFound(Lv, head, Bytes(e));
    assert e.arrived[..z.used] == e.arrived[..e.used - 2] + (head + Bytes(e));
    EncodeAllAppend(Lv, e.delivered, [f]);
    EncodeAllOne(Lv, f);
  }

  lemma ErrorKeeps(e: Echo)
    requires Reading(e) && !e.want.Closed?
    ensures Reading(e.(want := Closed(false)))
  {
    var n := if e.want.WantHead? then e.used else e.used - 2;
    assert e.arrived == e.arrived[..n] + e.arrived[n..];
  }

  lemma OffersGrow(offers: seq<Offer>, o: Offer)
    ensures OfferedFrames(offers + [o]) == OfferedFrames(offers) + [o.frame]
  {
    assert (offers + [o])[..|offers|] == offers;
  }

  lemma AnswerKeeps(reply: Frame -> Frame, e: Echo)
    requires EchoOk(reply, e) && EchoEnabled(e, ReadMsg)
    ensures EchoOk(reply, BodyRead(reply, e))
  {
    MsgKeeps(reply, e);
    hide PipeOk, Reading;
    var f: Frame := Packet(e.want.id, Bytes(e));
    OfferKeeps(Lv, e.pipe, reply(f));
    OffersGrow(e.pipe.offers, Offer(reply(f), |e.pipe.queue|, |e.pipe.queue| <= MAX_SENDQUE_SIZE));
    assert Replies(reply, e.delivered + [f]) == Replies(reply, e.delivered) + [reply(f)];
  }

  lemma WritingKeeps(reply: Frame -> Frame, e: Echo, w: PipeEvent)
    requires EchoOk(reply, e) && EchoEnabled(e, Writing(w))
    ensures EchoOk(reply, EchoStep(reply, e, Writing(w)))
  {
    PipeStepKeeps(Lv, e.pipe, w);
    hide PipeOk;
  }

  lemma EchoStepKeeps(reply: Frame -> Frame, e: Echo, ev: EchoEvent)
    requires EchoOk(reply, e) && EchoEnabled(e, ev)
    ensures EchoOk(reply, EchoStep(reply, e, ev))
  {
    hide PipeOk;
    match ev
    case Arrive(bs) => ArriveKeeps(e, bs);
    case ReadHead => HeadKeeps(e);
    case ReadMsg => AnswerKeeps(reply, e);
    case ReadError => ErrorKeeps(e);
    case Writing(w) => WritingKeeps(reply, e, w);
  }

  lemma {:induction false} EchoRunKeeps(reply: Frame -> Frame, e: Echo, events: seq<EchoEvent>, z: Echo)
    requires EchoOk(reply, e) && EchoRun(reply, e, events, z)
    ensures EchoOk(reply, z)
    decreases |events|
  {
    if events != [] {
      EchoStepKeeps(reply, e, events[0]);
      EchoRunKeeps(reply, EchoStep(reply, e, events[0]), events[1..], z);
    }
  }

  // ---------------------------------------------------------------- what a run has seen

  /** The bytes that arrived. */
  function Arrivals(events: seq<EchoEvent>): seq<Byte> {
    if events == [] then []
    else (if events[0].Arrive? then events[0].bs else []) + Arrivals(events[1..])
  }

  lemma {:induction false} EchoHistory(reply: Frame -> Frame, e: Echo, events: seq<EchoEvent>, z: Echo)
    requires EchoRun(reply, e, events, z)
    ensures z.arrived == e.arrived + Arrivals(events)
    ensures z.want == Closed(false) <==> e.want == Closed(false) || ReadError in events
    ensures z.pipe.failed <==> e.pipe.failed || exists i :: Writing(Failing(i)) in events
    decreases |events|
  {
    if events == [] {
      assert e.arrived + [] == e.arrived;
    } else {
      var y := EchoStep(reply, e, events[0]);
      EchoStepHistory(reply, e, events[0]);
      EchoHistory(reply, y, events[1..], z);
      assert events == [events[0]] + events[1..];
      hide EchoStep, EchoEnabled;
      Associative(e.arrived, Arrivals([events[0]]), Arrivals(events[1..]));
      assert Arrivals([events[0]]) == if events[0].Arrive? then events[0].bs else [];
    }
  }

  lemma EchoStepHistory(reply: Frame -> Frame, e: Echo, ev: EchoEvent)
    requires EchoEnabled(e, ev)
    ensures var y := EchoStep(reply, e, ev);
            && y.arrived == e.arrived + (if ev.Arrive? then ev.bs else [])
            && (y.want == Closed(false) <==> e.want == Closed(false) || ev.ReadError?)
            && (y.pipe.failed <==> e.pipe.failed || (ev.Writing? && ev.w.Failing?))
  {
    assert e.arrived + [] == e.arrived;
  }

  /** The session leaves off reading on its own account only at a refused header, and at a read error
      in any case; and what arrived is what came. */
  lemma ReadsOn(reply: Frame -> Frame, events: seq<EchoEvent>, e: Echo)
    requires EchoRun(reply, NEW_ECHO, events, e)
    ensures e.arrived == Arrivals(events)
    ensures e.want == Closed(false) <==> ReadError in events
    ensures e.want == Closed(true) ==> Parse(Lv, e.arrived).stop == Refused
    ensures EchoEnabled(e, ReadError) <==> !e.want.Closed?
    ensures e.pipe.failed <==> exists i :: Writing(Failing(i)) in events
  {
    EchoHistory(reply, NEW_ECHO, events, e);
    assert [] + Arrivals(events) == Arrivals(events);
    if e.want == Closed(true) {
      TheTwoReadersAgree(reply, events, e);
    }
  }

  // ---------------------------------------------------------------- the two readers agree

  /** The bytes behind the delivered messages. */
  function Tail(e: Echo): seq<Byte> {
    var n := |EncodeAll(Lv, e.delivered)|;
    if n <= |e.arrived| then e.arrived[n..] else []
  }

  /** A reader that can go no further has nothing whole in front of it. */
  lemma IdleTail(e: Echo)
    requires Reading(e) && !CanRead(e) && e.want != Closed(false)
    ensures e.arrived == EncodeAll(Lv, e.delivered) + Tail(e)
    ensures if e.want.Closed? then StartsWith(Lv, Tail(e), Refuse) else Unfinished(Lv, Tail(e))
  {
    match e.want
    case WantHead =>
      assert e.arrived == e.arrived[..e.used] + e.arrived[e.used..];
    case WantBody(id, len) =>
      assert e.arrived == e.arrived[..e.used - 2] + e.arrived[e.used - 2..];
      assert Tail(e)[..2] == e.arrived[e.used - 2..e.used];
    case Closed(_) =>
  }

  /** The exact-read pair delivers, in order, frames that the incremental parser finds in the same
      bytes.  When it can go no further and there was no read error it has delivered
      all of them, and it has closed the session exactly when the parser refuses a header there. */
  lemma TheTwoReadersAgree(reply: Frame -> Frame, events: seq<EchoEvent>, e: Echo)
    requires EchoRun(reply, NEW_ECHO, events, e)
    ensures e.delivered <= Parse(Lv, e.arrived).frames
    ensures !CanRead(e) && ReadError !in events ==>
              && e.delivered == Parse(Lv, e.arrived).frames
              && Tail(e) == Parse(Lv, e.arrived).rest
              && (e.want.Closed? <==> Parse(Lv, e.arrived).stop == Refused)
  {
    EchoRunKeeps(reply, NEW_ECHO, events, e);
    EchoHistory(reply, NEW_ECHO, events, e);
    DeliveredIsParsed(e);
    if !CanRead(e) && ReadError !in events {
      IdleTail(e);
      ParseTail(Lv, Tail(e));
      ParseIsTheOnlyReading(Lv, e.delivered, Tail(e));
    }
  }

  lemma DeliveredIsParsed(e: Echo)
    requires Reading(e)
    ensures e.delivered <= Parse(Lv, e.arrived).frames
    ensures EncodeAll(Lv, e.delivered) <= e.arrived
  {
    var n := match e.want
      case WantHead => e.used
      case WantBody(_, _) => e.used - 2
      case Closed(_) => |EncodeAll(Lv, e.delivered)|;
    var before := EncodeAll(Lv, e.delivered);
    assert before == e.arrived[..n];
    assert Parse(Lv, []) == Parsed([], [], NeedMore);
    hide *;
    assert e.arrived == before + e.arrived[n..];
    assert before + [] == before;
    ParseIsTheOnlyReading(Lv, e.delivered, []);
    ParseResumes(Lv, before, e.arrived[n..]);
  }

  // ---------------------------------------------------------------- verbatim echo

  lemma RepliesPrefix(reply: Frame -> Frame, some: seq<Frame>, all: seq<Frame>)
    requires some <= all
    ensures EncodeAll(Lv, Replies(reply, some)) <= EncodeAll(Lv, Replies(reply, all))
  {
    hide EncodeAll;
    var n := |some|;
    assert Replies(reply, all) == Replies(reply, some) + Replies(reply, all[n..]);
    EncodeAllAppend(Lv, Replies(reply, some), Replies(reply, all[n..]));
  }

  /** As long as no send is refused the session writes a prefix of the encoded replies to the
      messages in the bytes that arrived; with the send queue empty, the replies to all messages
      delivered so far. */
  lemma RepliesInOrder(reply: Frame -> Frame, events: seq<EchoEvent>, e: Echo)
    requires EchoRun(reply, NEW_ECHO, events, e) && RefusedCount(e.pipe.offers) == 0
    ensures e.pipe.wire <= EncodeAll(Lv, Replies(reply, Parse(Lv, e.arrived).frames))
    ensures e.pipe.queue == [] ==> e.pipe.wire == EncodeAll(Lv, Replies(reply, e.delivered))
  {
    EchoRunKeeps(reply, NEW_ECHO, events, e);
    hide EchoRun, Parse, EncodeAll, Encode, PipeOk, Reading, Replies, TakenFrames, OfferedFrames, RefusedCount;
    WireIsAPrefix(Lv, e.pipe);
    CountOffers(e.pipe.offers);
    TheTwoReadersAgree(reply, events, e);
    RepliesPrefix(reply, e.delivered, Parse(Lv, e.arrived).frames);
  }

  /** JsonServer sends every body back as it came. */
  function Verbatim(f: Frame): Frame {
    f
  }

  lemma RepliedVerbatim(fs: seq<Frame>)
    ensures Replies(Verbatim, fs) == fs
  {
    forall i | 0 <= i < |fs| ensures Replies(Verbatim, fs)[i] == fs[i] {
      assert Verbatim(fs[i]) == fs[i];
    }
  }

  /** Without a refused send the bytes JsonServer writes are a prefix of the bytes received, whatever
      errors occur; and once the send queue is empty and the reader can go no further they are all
      the whole frames received. */
  lemma VerbatimEcho(events: seq<EchoEvent>, e: Echo)
    requires EchoRun(Verbatim, NEW_ECHO, events, e) && RefusedCount(e.pipe.offers) == 0
    ensures e.pipe.wire <= e.arrived
    ensures e.pipe.queue == [] && !CanRead(e) && ReadError !in events ==>
              e.pipe.wire + Parse(Lv, e.arrived).rest == e.arrived
  {
    RepliesInOrder(Verbatim, events, e);
    RepliedVerbatim(Parse(Lv, e.arrived).frames);
    RepliedVerbatim(e.delivered);
    ParseThenEncode(Lv, e.arrived);
    if e.pipe.queue == [] && !CanRead(e) && ReadError !in events {
      TheTwoReadersAgree(Verbatim, events, e);
    }
  }

  // ---------------------------------------------------------------- the class

  /** Which async_read is in progress. */
  datatype Armed = NoRead | HeadInto | MsgInto

  /** The exact-read pair of JsonServer's Session. */
  class ExactSession {
    const send: SendSide
    const recvHeadNode: MsgNode
    var recvMsgNode: MsgNode?
    var armed: Armed
    var closed: bool

    ghost var arrived: seq<Byte>
    ghost var used: nat
    ghost var want: Want
    ghost var delivered: seq<Frame>

    /** The session as a state of the model above. */
    ghost function Abs(): Echo
      reads this, send
    {
      Echo(arrived, used, want, delivered, send.pipe)
    }

    ghost predicate Buffers()
      reads this, send, recvHeadNode
      reads if recvMsgNode == null then {} else {recvMsgNode}
    {
      && send.fmt == Lv
      && recvHeadNode.Valid() && recvHeadNode.totalLen == Lv.HeadLen()
      && (forall n <- send.sendQueue :: n.data != recvHeadNode.data)
      && (match armed
          case NoRead => want.Closed?
          case HeadInto => want == WantHead
          case MsgInto =>
            && recvMsgNode != null && recvMsgNode.Valid()
            && want == WantBody(0, recvMsgNode.totalLen) && recvMsgNode.totalLen <= MAX_LENGTH
            && recvMsgNode.data != recvHeadNode.data
            && (forall n <- send.sendQueue :: n.data != recvMsgNode.data))
    }

    ghost predicate Valid()
      reads this, send, recvHeadNode
      reads if recvMsgNode == null then {} else {recvMsgNode}
      reads set n | n in send.sendQueue :: n.data
    {
      Buffers() && send.Valid() && EchoOk(Verbatim, Abs())
    }

    /** The buffer of the read in progress holds the bytes it was waiting for. */
    ghost predicate ReadComplete()
      requires Buffers()
      reads this, send, recvHeadNode, recvHeadNode.data
      reads if recvMsgNode == null then {} else {recvMsgNode, recvMsgNode.data}
    {
      && CanRead(Abs())
      && (armed.HeadInto? ==> recvHeadNode.data[..Lv.HeadLen()] == Bytes(Abs()))
      && (armed.MsgInto? ==> recvMsgNode.data[..recvMsgNode.totalLen] == Bytes(Abs()))
    }

    constructor (send: SendSide)
      requires send.Valid() && send.fmt == Lv && send.pipe == EMPTY_PIPE
      ensures Valid() && armed == HeadInto && Abs() == NEW_ECHO && this.send == send
      ensures fresh(recvHeadNode) && fresh(recvHeadNode.data)
    {
      this.send := send;
      this.recvHeadNode := new MsgNode.ForReceiving(Lv.HeadLen(), 0);
      this.recvMsgNode, this.armed, this.closed := null, HeadInto, false;
      this.arrived, this.used, this.want, this.delivered := [], 0, WantHead, [];
      new;
      assert EncodeAll(Lv, delivered) == [];
    }

    /** Close and leave the map. */
    method Drop()
      modifies this`closed, this`armed, this`want, send.server`sessions
      ensures closed && armed == NoRead
      ensures want == Closed(old(want.Closed? && want.refused))
      ensures send.server.sessions == old(send.server.sessions) - {send.uuid}
    {
      closed, armed, want := true, NoRead, Closed(want.Closed? && want.refused);
      send.server.ClearSession(send.uuid);
    }

    method HandleReadHead(error: bool, n: nat)
      requires Valid() && armed == HeadInto
      requires !error && n >= Lv.HeadLen() ==> ReadComplete() && !CheckHead(Lv, Bytes(Abs())).Negative?
      modifies this, send.server`sessions
      ensures Valid()
      ensures Abs() == if error || n < Lv.HeadLen() then old(Abs()).(want := Closed(false))
                       else HeadRead(old(Abs()))
      ensures closed == (old(closed) || armed == NoRead)
      ensures armed == NoRead ==> send.server.sessions == old(send.server.sessions) - {send.uuid}
      ensures armed != NoRead ==> armed == MsgInto && send.server.sessions == old(send.server.sessions)
    {
      hide EchoOk, PipeOk, Reading;
      if error || n < Lv.HeadLen() {
        EchoStepKeeps(Verbatim, Abs(), ReadError);
        Drop();
        return;
      }
      EchoStepKeeps(Verbatim, Abs(), ReadHead);
      var v := CheckHead(Lv, recvHeadNode.data[..Lv.HeadLen()]);
      used := used + Lv.HeadLen();
      if v.Refuse? {
        want := Closed(true);
        Drop();
        return;
      }
      want := WantBody(v.id, v.len);
      recvMsgNode := new MsgNode.ForReceiving(v.len, v.id);
      armed := MsgInto;
    }

    method HandleReadMsg(error: bool)
      requires Valid() && armed == MsgInto
      requires !error ==> ReadComplete()
      modifies this, send`sendQueue, send`inFlight, send`pipe, send.server`sessions
      modifies recvHeadNode, recvHeadNode.data, recvMsgNode.data
      ensures Valid()
      ensures Abs() == if error then old(Abs()).(want := Closed(false)) else BodyRead(Verbatim, old(Abs()))
      ensures armed == (if error then NoRead else HeadInto) && closed == (old(closed) || error)
      ensures send.server.sessions == if error then old(send.server.sessions) - {send.uuid}
                                      else old(send.server.sessions)
    {
      hide EchoOk, PipeOk, Reading, Offered;
      ghost var before := Abs();
      if error {
        EchoStepKeeps(Verbatim, before, ReadError);
        Drop();
        return;
      }
      EchoStepKeeps(Verbatim, before, ReadMsg);
      var body := recvMsgNode.data[..recvMsgNode.totalLen];
      used, want, delivered := used + recvMsgNode.totalLen, WantHead, delivered + [Packet(0, body)];
      armed := HeadInto;
      recvMsgNode.data[recvMsgNode.totalLen] := 0;
      Answer(Packet(0, body));
      assert Abs() == BodyRead(Verbatim, before);
    }

    /** The message is sent back and the header node made ready for the next one. */
    method Answer(f: Frame)
      requires Buffers() && armed == HeadInto && send.Valid()
      modifies send`sendQueue, send`inFlight, send`pipe, recvHeadNode, recvHeadNode.data
      ensures Buffers() && send.Valid() && send.pipe == Offered(old(send.pipe), f)
    {
      hide PipeOk, Offered;
      send.Send(f);
      recvHeadNode.Clear();
    }
  }
}
