/** AsyncEchoServer2, and JsonServer with its incremental reader: the read handler parses a chunk and
    calls Send with the reply to every message it completes, before it arms the next read. */
module InlineServers {
  import opened Codec
  import opened SendQueues
  import opened Echoes

  datatype ReadPc = Armed | Answering(todo: seq<Frame>, refused: bool) | Ended

  datatype Inline = Inline(recv: seq<Byte>, reader: ReadPc, answered: seq<Frame>, pipe: Pipe)

  const NEW_INLINE := Inline([], Armed, [], EMPTY_PIPE)

  datatype InlineEvent =
    | Read(chunk: seq<Byte>)
    | ReadFailure
    | Answer
    | EndRead
    | Write(w: PipeEvent)

  predicate InlineEnabled(x: Inline, ev: InlineEvent) {
    match ev
    case Read(chunk) =>
      && x.reader.Armed? && 0 < |chunk| <= MAX_LENGTH
      && Parse(Lv, Parse(Lv, x.recv).rest + chunk).stop != NegativeLength
    case ReadFailure => x.reader.Armed?
    case Answer => x.reader.Answering? && x.reader.todo != []
    case EndRead => x.reader.Answering? && x.reader.todo == []
    case Write(w) => !w.Offering? && PipeEnabled(Lv, x.pipe, w)
  }

  function InlineStep(reply: Frame -> Frame, x: Inline, ev: InlineEvent): Inline
    requires InlineEnabled(x, ev)
  {
    match ev
    case Read(chunk) =>
      var p := Parse(Lv, Parse(Lv, x.recv).rest + chunk);
      x.(recv := x.recv + chunk, reader := Answering(p.frames, p.stop == Refused))
    case ReadFailure => x.(reader := Ended)
    case Answer =>
      var f := x.reader.todo[0];
      x.(reader := Answering(x.reader.todo[1..], x.reader.refused),
         answered := x.answered + [f], pipe := Offered(x.pipe, reply(f)))
    case EndRead => x.(reader := if x.reader.refused then Ended else Armed)
    case Write(w) => x.(pipe := PipeStep(Lv, x.pipe, w))
  }

  ghost predicate InlineRun(reply: Frame -> Frame, x: Inline, events: seq<InlineEvent>, z: Inline)
    decreases |events|
  {
    if events == [] then x == z
    else InlineEnabled(x, events[0]) && InlineRun(reply, InlineStep(reply, x, events[0]), events[1..], z)
  }

  /** The frames in the bytes received are those answered and those the handler is about to answer. */
  predicate ParsedSoFar(x: Inline) {
    var p := Parse(Lv, x.recv);
    && p.frames == x.answered + (if x.reader.Answering? then x.reader.todo else [])
    && p.stop != NegativeLength
    && (x.reader.Armed? ==> p.stop == NeedMore)
    && (x.reader.Answering? ==> (p.stop == Refused <==> x.reader.refused))
  }

  predicate InlineOk(reply: Frame -> Frame, x: Inline) {
    && ParsedSoFar(x)
    && PipeOk(Lv, x.pipe)
    && OfferedFrames(x.pipe.offers) == Replies(reply, x.answered)
  }

  lemma ReadKeeps(reply: Frame -> Frame, x: Inline, chunk: seq<Byte>)
    requires InlineOk(reply, x) && InlineEnabled(x, Read(chunk))
    ensures InlineOk(reply, InlineStep(reply, x, Read(chunk)))
  {
    ParseResumes(Lv, x.recv, chunk);
    hide Parse, PipeOk, Replies;
    assert x.answered + [] == x.answered;
  }

  lemma AnswerKeeps(reply: Frame -> Frame, x: Inline)
    requires InlineOk(reply, x) && InlineEnabled(x, Answer)
    ensures InlineOk(reply, InlineStep(reply, x, Answer))
  {
    hide Parse, PipeOk, TakenFrames, OfferedFrames, RefusedCount;
    var f := x.reader.todo[0];
    OfferKeeps(Lv, x.pipe, reply(f));
    OffersGrow(x.pipe.offers, Offer(reply(f), |x.pipe.queue|, |x.pipe.queue| <= MAX_SENDQUE_SIZE));
    assert Replies(reply, x.answered + [f]) == Replies(reply, x.answered) + [reply(f)];
    assert x.answered + x.reader.todo == (x.answered + [f]) + x.reader.todo[1..];
  }

  lemma WriteKeeps(reply: Frame -> Frame, x: Inline, w: PipeEvent)
    requires InlineOk(reply, x) && InlineEnabled(x, Write(w))
    ensures InlineOk(reply, InlineStep(reply, x, Write(w)))
  {
    PipeStepKeeps(Lv, x.pipe, w);
    NothingOffered(x.pipe, w);
    hide Parse, PipeOk, PipeStep;
  }

  lemma NothingOffered(p: Pipe, w: PipeEvent)
    requires PipeEnabled(Lv, p, w) && !w.Offering?
    ensures PipeStep(Lv, p, w).offers == p.offers
  {}

  lemma InlineStepKeeps(reply: Frame -> Frame, x: Inline, ev: InlineEvent)
    requires InlineOk(reply, x) && InlineEnabled(x, ev)
    ensures InlineOk(reply, InlineStep(reply, x, ev))
  {
    hide Parse, PipeOk, Replies;
    match ev
    case Read(chunk) => ReadKeeps(reply, x, chunk);
    case Answer => AnswerKeeps(reply, x);
    case Write(w) => WriteKeeps(reply, x, w);
    case _ =>
  }

  lemma {:induction false} InlineRunKeeps(reply: Frame -> Frame, x: Inline, events: seq<InlineEvent>, z: Inline)
    requires InlineOk(reply, x) && InlineRun(reply, x, events, z)
    ensures InlineOk(reply, z)
    decreases |events|
  {
    hide InlineOk, InlineEnabled, InlineStep;
    if events != [] {
      InlineStepKeeps(reply, x, events[0]);
      InlineRunKeeps(reply, InlineStep(reply, x, events[0]), events[1..], z);
    }
  }

  lemma ReachableInline(reply: Frame -> Frame, events: seq<InlineEvent>, x: Inline)
    requires InlineRun(reply, NEW_INLINE, events, x)
    ensures InlineOk(reply, x)
  {
    NewInlineIsOk(reply);
    hide InlineOk, InlineRun;
    InlineRunKeeps(reply, NEW_INLINE, events, x);
  }

  lemma NewInlineIsOk(reply: Frame -> Frame)
    ensures InlineOk(reply, NEW_INLINE)
  {
    assert Parse(Lv, []) == Parsed([], [], NeedMore);
  }

  /** The bytes that reads delivered. */
  function Reads(events: seq<InlineEvent>): seq<Byte> {
    if events == [] then []
    else (if events[0].Read? then events[0].chunk else []) + Reads(events[1..])
  }

  lemma InlineStepHistory(reply: Frame -> Frame, x: Inline, ev: InlineEvent)
    requires InlineOk(reply, x) && InlineEnabled(x, ev)
    ensures var y := InlineStep(reply, x, ev);
            && y.recv == x.recv + (if ev.Read? then ev.chunk else [])
            && (y.reader.Ended? ==> x.reader.Ended? || ev.ReadFailure? || Parse(Lv, y.recv).stop == Refused)
            && (x.reader.Ended? || ev.ReadFailure? ==> y.reader.Ended? && y.recv == x.recv)
  {
    hide Parse, PipeOk, Replies, OfferedFrames, Offered, PipeStep, PipeEnabled;
    assert x.recv + [] == x.recv;
  }

  lemma FailureStep(reply: Frame -> Frame, x: Inline, ev: InlineEvent)
    requires InlineOk(reply, x) && InlineEnabled(x, ev)
    ensures InlineStep(reply, x, ev).pipe.failed <==> x.pipe.failed || (ev.Write? && ev.w.Failing?)
  {
    if ev.Write? {
      PipeStepHistory(Lv, x.pipe, ev.w);
    }
    hide Parse, PipeOk, Replies, OfferedFrames, PipeStep, PipeEnabled;
  }

  lemma {:induction false} ReadHistory(reply: Frame -> Frame, x: Inline, events: seq<InlineEvent>, z: Inline)
    requires InlineOk(reply, x) && InlineRun(reply, x, events, z)
    ensures z.recv == x.recv + Reads(events)
    ensures z.reader.Ended? ==> x.reader.Ended? || ReadFailure in events || Parse(Lv, z.recv).stop == Refused
    ensures x.reader.Ended? || ReadFailure in events ==> z.reader.Ended?
    ensures x.reader.Ended? ==> z.recv == x.recv
    decreases |events|
  {
    hide InlineOk, InlineStep, InlineEnabled, Parse;
    if events == [] {
      assert x.recv + [] == x.recv;
    } else {
      var y := InlineStep(reply, x, events[0]);
      InlineStepHistory(reply, x, events[0]);
      InlineStepKeeps(reply, x, events[0]);
      ReadHistory(reply, y, events[1..], z);
      assert ReadFailure in events <==> events[0].ReadFailure? || ReadFailure in events[1..];
      Associative(x.recv, if events[0].Read? then events[0].chunk else [], Reads(events[1..]));
    }
  }

  lemma {:induction false} FailureHistory(reply: Frame -> Frame, x: Inline, events: seq<InlineEvent>, z: Inline)
    requires InlineOk(reply, x) && InlineRun(reply, x, events, z)
    ensures z.pipe.failed <==> x.pipe.failed || exists i :: Write(Failing(i)) in events
    decreases |events|
  {
    hide InlineOk, InlineStep, InlineEnabled, Parse;
    if events != [] {
      FailureStep(reply, x, events[0]);
      InlineStepKeeps(reply, x, events[0]);
      FailureHistory(reply, InlineStep(reply, x, events[0]), events[1..], z);
      assert events == [events[0]] + events[1..];
    }
  }

  /** A session reads on unless a read has failed or a header was refused, and it has received what
      the reads delivered. */
  lemma InlineReadsOn(reply: Frame -> Frame, events: seq<InlineEvent>, x: Inline)
    requires InlineRun(reply, NEW_INLINE, events, x)
    ensures x.recv == Reads(events)
    ensures x.reader.Ended? ==> ReadFailure in events || Parse(Lv, x.recv).stop == Refused
    ensures ReadFailure in events || (Parse(Lv, x.recv).stop == Refused && !x.reader.Answering?) ==> x.reader.Ended?
    ensures InlineEnabled(x, ReadFailure) <==> x.reader.Armed?
    ensures x.pipe.failed <==> exists i :: Write(Failing(i)) in events
  {
    hide InlineRun, Parse, PipeOk, Replies, OfferedFrames;
    NewInlineIsOk(reply);
    ReadHistory(reply, NEW_INLINE, events, x);
    FailureHistory(reply, NEW_INLINE, events, x);
    ReachableInline(reply, events, x);
    assert [] + Reads(events) == Reads(events);
  }

  /** Under any chunking and any timing of the writes: without a refused send the session writes a
      prefix of the encoded replies to the messages in the bytes it received, in order; and between
      two reads with an empty send queue, or behind a refused header, all of them. */
  lemma InlineEndToEnd(reply: Frame -> Frame, events: seq<InlineEvent>, x: Inline)
    requires InlineRun(reply, NEW_INLINE, events, x) && RefusedCount(x.pipe.offers) == 0
    ensures x.pipe.wire <= EncodeAll(Lv, Replies(reply, Parse(Lv, x.recv).frames))
    ensures !x.reader.Answering? && x.pipe.queue == [] ==>
              x.pipe.wire == EncodeAll(Lv, Replies(reply, Parse(Lv, x.recv).frames))
  {
    hide InlineRun, Parse, EncodeAll, PipeOk, Replies, TakenFrames, OfferedFrames, RefusedCount;
    ReachableInline(reply, events, x);
    assert !x.reader.Answering? ==> Parse(Lv, x.recv).frames == x.answered;
    WireIsAPrefix(Lv, x.pipe);
    CountOffers(x.pipe.offers);
    RepliesPrefix(reply, x.answered, Parse(Lv, x.recv).frames);
  }
}
