/** The servers that answer in the read handler come to rest: left to themselves they get everything
    that has arrived read, answered and written, within a bounded number of steps. */
module EchoLiveness {
  import opened Codec
  import opened SendQueues
  import opened Echoes
  import opened InlineServers

  /** Steps to answer these messages and to get the replies written. */
  function AnswerWork(reply: Frame -> Frame, fs: seq<Frame>): nat {
    if fs == [] then 0 else FrameWork(Lv, reply(fs[0])) + 2 + AnswerWork(reply, fs[1..])
  }

  predicate PipeQuiet(p: Pipe) {
    p.queue == [] || p.failed
  }

  // ---------------------------------------------------------------- the exact-read pair

  /** Reads that have their bytes, and steps of the socket and the write handler; nothing arrives and
      nothing fails. */
  predicate EchoOwn(ev: EchoEvent) {
    ev.ReadHead? || ev.ReadMsg? || (ev.Writing? && Forward(ev.w))
  }

  /** No read can complete (a negative length is not read on), and there is nothing to write. */
  predicate EchoAtRest(e: Echo) {
    && !EchoEnabled(e, ReadHead) && !EchoEnabled(e, ReadMsg)
    && PipeQuiet(e.pipe)
  }

  function EchoWork(reply: Frame -> Frame, e: Echo): nat
    requires e.delivered <= Parse(Lv, e.arrived).frames
  {
    AnswerWork(reply, Parse(Lv, e.arrived).frames[|e.delivered|..])
    + (if e.want.WantHead? then 1 else 0) + SendWork(Lv, e.pipe, true)
  }

  lemma EchoReadMsgWorks(reply: Frame -> Frame, e: Echo)
    requires EchoOk(reply, e) && EchoEnabled(e, ReadMsg)
    ensures e.delivered <= Parse(Lv, e.arrived).frames
    ensures BodyRead(reply, e).delivered <= Parse(Lv, e.arrived).frames
    ensures EchoWork(reply, BodyRead(reply, e)) < EchoWork(reply, e)
  {
    var z := BodyRead(reply, e);
    var f: Frame := Packet(e.want.id, Bytes(e));
    var all := Parse(Lv, e.arrived).frames;
    Echoes.AnswerKeeps(reply, e);
    DeliveredIsParsed(e);
    DeliveredIsParsed(z);
    OfferWorks(Lv, e.pipe, reply(f), true);
    hide Parse, Reading, PipeOk, SendWork, FrameWork, Offered;
    assert all[|e.delivered|] == z.delivered[|e.delivered|] == f;
    assert all[|e.delivered|..][1..] == all[|z.delivered|..];
  }

  lemma EchoStepWorks(reply: Frame -> Frame, e: Echo, ev: EchoEvent)
    requires EchoOk(reply, e) && EchoEnabled(e, ev) && EchoOwn(ev)
    ensures var z := EchoStep(reply, e, ev);
            && e.delivered <= Parse(Lv, e.arrived).frames && z.delivered <= Parse(Lv, z.arrived).frames
            && EchoWork(reply, z) < EchoWork(reply, e)
  {
    DeliveredIsParsed(e);
    if ev.ReadMsg? {
      EchoReadMsgWorks(reply, e);
    } else if ev.Writing? {
      PipeStepWorks(Lv, e.pipe, ev.w, true, true);
    }
    hide Parse, Reading, PipeOk, SendWork, AnswerWork, PipeStep;
  }

  lemma {:induction false} EchoOwnStepsEnd(reply: Frame -> Frame, e: Echo, own: seq<EchoEvent>, z: Echo)
    requires EchoOk(reply, e) && EchoRun(reply, e, own, z) && forall ev <- own :: EchoOwn(ev)
    ensures EchoOk(reply, z) && z.arrived == e.arrived
    ensures e.delivered <= Parse(Lv, e.arrived).frames && z.delivered <= Parse(Lv, z.arrived).frames
    ensures |own| + EchoWork(reply, z) <= EchoWork(reply, e)
    decreases |own|
  {
    hide EchoOk, EchoWork, Parse;
    if own != [] {
      assert own[0] in own;
      EchoStepWorks(reply, e, own[0]);
      EchoStepKeeps(reply, e, own[0]);
      EchoOwnStepsEnd(reply, EchoStep(reply, e, own[0]), own[1..], z);
    } else {
      EchoDelivered(reply, e);
    }
  }

  lemma EchoDelivered(reply: Frame -> Frame, e: Echo)
    requires EchoOk(reply, e)
    ensures e.delivered <= Parse(Lv, e.arrived).frames
  {
    DeliveredIsParsed(e);
  }

  lemma EchoProgresses(reply: Frame -> Frame, e: Echo) returns (ev: EchoEvent)
    requires EchoOk(reply, e) && !EchoAtRest(e)
    ensures EchoEnabled(e, ev) && EchoOwn(ev)
  {
    hide Reading, PipeOk, CheckHead;
    if EchoEnabled(e, ReadHead) {
      ev := ReadHead;
    } else if EchoEnabled(e, ReadMsg) {
      ev := ReadMsg;
    } else {
      var w := PipeProgresses(Lv, e.pipe);
      ev := Writing(w);
    }
  }

  lemma EchoRestIsStuck(reply: Frame -> Frame, e: Echo)
    requires EchoOk(reply, e) && EchoAtRest(e)
    ensures forall ev | EchoOwn(ev) :: !EchoEnabled(e, ev)
  {
    hide Reading, WireInOrder, Encode;
  }

  /** A header with its bytes there that is not read on has a negative length. */
  lemma AWaitingHeadIsNegative(e: Echo)
    requires Reading(e) && e.want.WantHead? && CanRead(e) && !EchoEnabled(e, ReadHead)
    ensures Parse(Lv, e.arrived).stop == NegativeLength
  {
    var before, rest := EncodeAll(Lv, e.delivered), e.arrived[e.used..];
    hide Parse, EncodeAll, CheckHead;
    assert before == e.arrived[..e.used];
    assert e.arrived == before + rest;
    assert rest[..2] == Bytes(e);
    ParseTail(Lv, rest);
    ParseIsTheOnlyReading(Lv, e.delivered, rest);
  }

  /** Where no read can complete although the bytes are there, a negative length has been decoded. */
  lemma EchoRestIsIdle(reply: Frame -> Frame, e: Echo)
    requires EchoOk(reply, e) && EchoAtRest(e) && Parse(Lv, e.arrived).stop != NegativeLength
    ensures !CanRead(e)
  {
    hide Parse, Reading, PipeOk, EchoEnabled;
    if CanRead(e) && e.want.WantHead? {
      AWaitingHeadIsNegative(e);
    } else if CanRead(e) {
      ABodyIsShort(e);
    }
  }

  lemma ABodyIsShort(e: Echo)
    requires Reading(e) && e.want.WantBody? && CanRead(e)
    ensures EchoEnabled(e, ReadMsg)
  {}

  lemma {:induction false} EchoRunsCompose(reply: Frame -> Frame, a: Echo, first: seq<EchoEvent>, b: Echo,
                                           second: seq<EchoEvent>, c: Echo)
    requires EchoRun(reply, a, first, b) && EchoRun(reply, b, second, c)
    ensures EchoRun(reply, a, first + second, c)
    decreases |first|
  {
    hide EchoEnabled, EchoStep;
    if first == [] {
      assert first + second == second;
    } else {
      EchoRunsCompose(reply, EchoStep(reply, a, first[0]), first[1..], b, second, c);
      assert (first + second)[1..] == first[1..] + second;
    }
  }

  /** Whatever has happened so far: once nothing more arrives, every schedule of the session's own
      steps ends after at most `EchoWork` of them, at rest; and there, without a refused send or an
      error, it has written exactly the replies to all messages in the bytes that arrived. */
  lemma EveryArrivalIsAnswered(reply: Frame -> Frame, before: seq<EchoEvent>, e: Echo, own: seq<EchoEvent>, z: Echo)
    requires EchoRun(reply, NEW_ECHO, before, e) && EchoRun(reply, e, own, z) && forall ev <- own :: EchoOwn(ev)
    ensures e.delivered <= Parse(Lv, e.arrived).frames && |own| <= EchoWork(reply, e)
    ensures EchoAtRest(z) <==> forall ev | EchoOwn(ev) :: !EchoEnabled(z, ev)
    ensures EchoAtRest(z) && Parse(Lv, z.arrived).stop != NegativeLength && ReadError !in before
            && RefusedCount(z.pipe.offers) == 0 && !z.pipe.failed ==>
              z.pipe.wire == EncodeAll(Lv, Replies(reply, Parse(Lv, z.arrived).frames))
  {
    NewEchoIsOk(reply);
    hide EchoOk, EchoRun, EchoWork, Parse, EncodeAll, RefusedCount, Replies, EchoEnabled, CanRead;
    EchoRunKeeps(reply, NEW_ECHO, before, e);
    EchoOwnStepsEnd(reply, e, own, z);
    EchoRunsCompose(reply, NEW_ECHO, before, e, own, z);
    if EchoAtRest(z) {
      EchoRestIsStuck(reply, z);
      if Parse(Lv, z.arrived).stop != NegativeLength && ReadError !in before && RefusedCount(z.pipe.offers) == 0 {
        assert ReadError !in before + own;
        EchoRestIsIdle(reply, z);
        RepliesInOrder(reply, before + own, z);
        TheTwoReadersAgree(reply, before + own, z);
      }
    } else {
      var ev := EchoProgresses(reply, z);
    }
  }

  lemma NewEchoIsOk(reply: Frame -> Frame)
    ensures EchoOk(reply, NEW_ECHO)
  {}

  /** Nothing was refused and no write failed. */
  predicate Unhindered(p: Pipe) {
    RefusedCount(p.offers) == 0 && !p.failed
  }

  lemma PipeStaysUnhindered(p: Pipe, w: PipeEvent)
    requires PipeEnabled(Lv, p, w) && Unhindered(p) && !w.Failing? && (w.Offering? ==> p.queue == [])
    ensures Unhindered(PipeStep(Lv, p, w))
  {
    PipeStepHistory(Lv, p, w);
    PipeOfferStep(Lv, p, w);
  }

  /** The next step of a session that writes before it reads. */
  lemma NextEcho(reply: Frame -> Frame, e: Echo) returns (ev: EchoEvent)
    requires EchoOk(reply, e) && Unhindered(e.pipe) && !EchoAtRest(e)
    ensures EchoEnabled(e, ev) && EchoOwn(ev) && Unhindered(EchoStep(reply, e, ev).pipe)
  {
    hide Reading, PipeOk, CheckHead, PipeStep, Offered, RefusedCount;
    if e.pipe.queue != [] {
      var w := PipeProgresses(Lv, e.pipe);
      PipeStaysUnhindered(e.pipe, w);
      ev := Writing(w);
    } else if EchoEnabled(e, ReadHead) {
      ev := ReadHead;
    } else {
      AnswerIsTaken(e.pipe, reply(Packet(e.want.id, Bytes(e))));
      ev := ReadMsg;
    }
  }

  lemma AnswerIsTaken(p: Pipe, f: Frame)
    requires Unhindered(p) && p.queue == []
    ensures Unhindered(Offered(p, f))
  {
    PipeStaysUnhindered(p, Offering(f));
  }

  lemma EchoSettles(reply: Frame -> Frame, e: Echo) returns (own: seq<EchoEvent>, z: Echo)
    requires EchoOk(reply, e) && e.delivered <= Parse(Lv, e.arrived).frames && Unhindered(e.pipe)
    ensures EchoRun(reply, e, own, z) && (forall ev <- own :: EchoOwn(ev))
    ensures EchoAtRest(z) && Unhindered(z.pipe) && EchoOk(reply, z)
    decreases EchoWork(reply, e)
  {
    hide EchoOk, EchoWork, EchoAtRest, EchoStep, EchoEnabled, EchoOwn, Unhindered, Parse;
    if EchoAtRest(e) {
      own, z := [], e;
    } else {
      var ev := NextEcho(reply, e);
      EchoStepWorks(reply, e, ev);
      EchoStepKeeps(reply, e, ev);
      own, z := EchoSettles(reply, EchoStep(reply, e, ev));
      assert ([ev] + own)[1..] == own;
      own := [ev] + own;
    }
  }

  /** Every stream can be echoed: however it is cut, some run without an error delivers it all and
      writes exactly the replies to all messages in it. */
  lemma {:induction false} EveryStreamCanBeEchoed(reply: Frame -> Frame, chunks: seq<seq<Byte>>)
    returns (events: seq<EchoEvent>, e: Echo)
    ensures EchoRun(reply, NEW_ECHO, events, e) && e.arrived == Concat(chunks) && ReadError !in events
    ensures EchoAtRest(e) && Unhindered(e.pipe)
    ensures Parse(Lv, Concat(chunks)).stop != NegativeLength ==>
              e.pipe.wire == EncodeAll(Lv, Replies(reply, Parse(Lv, Concat(chunks)).frames))
    decreases |chunks|
  {
    var before, y := [], NEW_ECHO;
    NewEchoIsOk(reply);
    assert EchoRun(reply, NEW_ECHO, [], NEW_ECHO) && Unhindered(NEW_ECHO.pipe);
    hide EchoOk, EchoRun, EchoAtRest, Unhindered, Parse, EncodeAll, Replies, EchoOwn;
    if chunks != [] {
      var last := chunks[|chunks| - 1];
      before, y := EveryStreamCanBeEchoed(reply, chunks[..|chunks| - 1]);
      before, y := OneArrival(reply, before, y, last);
    }
    EchoRunKeeps(reply, NEW_ECHO, before, y);
    EchoDelivered(reply, y);
    var own;
    own, e := EchoSettles(reply, y);
    EchoOwnStepsEnd(reply, y, own, e);
    EchoRunsCompose(reply, NEW_ECHO, before, y, own, e);
    OwnIsNoReadError(own);
    EveryArrivalIsAnsweredHere(reply, before, y, own, e);
    events := before + own;
  }

  lemma OwnIsNoReadError(own: seq<EchoEvent>)
    requires forall ev <- own :: EchoOwn(ev)
    ensures ReadError !in own
  {}

  lemma EveryArrivalIsAnsweredHere(reply: Frame -> Frame, before: seq<EchoEvent>, y: Echo,
                                   own: seq<EchoEvent>, e: Echo)
    requires EchoRun(reply, NEW_ECHO, before, y) && EchoRun(reply, y, own, e) && forall ev <- own :: EchoOwn(ev)
    requires ReadError !in before && EchoAtRest(e) && Unhindered(e.pipe)
    ensures Parse(Lv, e.arrived).stop != NegativeLength ==>
              e.pipe.wire == EncodeAll(Lv, Replies(reply, Parse(Lv, e.arrived).frames))
  {
    EveryArrivalIsAnswered(reply, before, y, own, e);
  }

  lemma OneArrival(reply: Frame -> Frame, before: seq<EchoEvent>, e: Echo, bs: seq<Byte>)
    returns (events: seq<EchoEvent>, z: Echo)
    requires EchoRun(reply, NEW_ECHO, before, e) && ReadError !in before && Unhindered(e.pipe)
    ensures EchoRun(reply, NEW_ECHO, events, z) && ReadError !in events && Unhindered(z.pipe)
    ensures z.arrived == e.arrived + bs
  {
    z := EchoStep(reply, e, Arrive(bs));
    assert EchoRun(reply, z, [], z);
    assert EchoRun(reply, e, [Arrive(bs)], z);
    EchoRunsCompose(reply, NEW_ECHO, before, e, [Arrive(bs)], z);
    events := before + [Arrive(bs)];
  }

  // ---------------------------------------------------------------- the incremental reader

  predicate InlineOwn(ev: InlineEvent) {
    ev.Answer? || ev.EndRead? || (ev.Write? && Forward(ev.w))
  }

  predicate InlineAtRest(x: Inline) {
    !x.reader.Answering? && PipeQuiet(x.pipe)
  }

  function InlineWork(reply: Frame -> Frame, x: Inline): nat {
    (if x.reader.Answering? then AnswerWork(reply, x.reader.todo) + 1 else 0) + SendWork(Lv, x.pipe, true)
  }

  lemma InlineStepWorks(reply: Frame -> Frame, x: Inline, ev: InlineEvent)
    requires InlineOk(reply, x) && InlineEnabled(x, ev) && InlineOwn(ev)
    ensures InlineWork(reply, InlineStep(reply, x, ev)) < InlineWork(reply, x)
  {
    if ev.Answer? {
      OfferWorks(Lv, x.pipe, reply(x.reader.todo[0]), true);
    } else if ev.Write? {
      PipeStepWorks(Lv, x.pipe, ev.w, true, true);
    }
    hide ParsedSoFar, PipeOk, SendWork, FrameWork, PipeStep, Offered;
  }

  lemma {:induction false} InlineOwnStepsEnd(reply: Frame -> Frame, x: Inline, own: seq<InlineEvent>, z: Inline)
    requires InlineOk(reply, x) && InlineRun(reply, x, own, z) && forall ev <- own :: InlineOwn(ev)
    ensures InlineOk(reply, z) && z.recv == x.recv && |own| + InlineWork(reply, z) <= InlineWork(reply, x)
    decreases |own|
  {
    hide InlineOk, InlineWork, Parse;
    if own != [] {
      assert own[0] in own;
      InlineStepWorks(reply, x, own[0]);
      InlineStepKeeps(reply, x, own[0]);
      InlineOwnStepsEnd(reply, InlineStep(reply, x, own[0]), own[1..], z);
    }
  }

  lemma InlineProgresses(reply: Frame -> Frame, x: Inline) returns (ev: InlineEvent)
    requires InlineOk(reply, x) && !InlineAtRest(x)
    ensures InlineEnabled(x, ev) && InlineOwn(ev)
  {
    hide ParsedSoFar, PipeOk;
    if x.reader.Answering? {
      ev := if x.reader.todo == [] then InlineEvent.EndRead else Answer;
    } else {
      var w := PipeProgresses(Lv, x.pipe);
      ev := Write(w);
    }
  }

  lemma InlineRestIsStuck(reply: Frame -> Frame, x: Inline)
    requires InlineOk(reply, x) && InlineAtRest(x)
    ensures forall ev | InlineOwn(ev) :: !InlineEnabled(x, ev)
  {
    hide ParsedSoFar, WireInOrder, Encode;
  }

  lemma {:induction false} InlineRunsCompose(reply: Frame -> Frame, a: Inline, first: seq<InlineEvent>, b: Inline,
                                             second: seq<InlineEvent>, c: Inline)
    requires InlineRun(reply, a, first, b) && InlineRun(reply, b, second, c)
    ensures InlineRun(reply, a, first + second, c)
    decreases |first|
  {
    hide InlineEnabled, InlineStep;
    if first == [] {
      assert first + second == second;
    } else {
      InlineRunsCompose(reply, InlineStep(reply, a, first[0]), first[1..], b, second, c);
      assert (first + second)[1..] == first[1..] + second;
    }
  }

  /** The same for the incremental reader: once nothing more is received, every schedule of own steps
      ends after at most `InlineWork` of them, with everything received answered. */
  lemma EveryReadIsAnswered(reply: Frame -> Frame, before: seq<InlineEvent>, x: Inline,
                            own: seq<InlineEvent>, z: Inline)
    requires InlineRun(reply, NEW_INLINE, before, x) && InlineRun(reply, x, own, z)
    requires forall ev <- own :: InlineOwn(ev)
    ensures |own| <= InlineWork(reply, x)
    ensures InlineAtRest(z) <==> forall ev | InlineOwn(ev) :: !InlineEnabled(z, ev)
    ensures InlineAtRest(z) && RefusedCount(z.pipe.offers) == 0 && !z.pipe.failed ==>
              z.pipe.wire == EncodeAll(Lv, Replies(reply, Parse(Lv, z.recv).frames))
  {
    hide InlineOk, InlineRun, InlineWork, Parse, EncodeAll, RefusedCount, Replies, InlineEnabled;
    ReachableInline(reply, before, x);
    InlineOwnStepsEnd(reply, x, own, z);
    InlineRunsCompose(reply, NEW_INLINE, before, x, own, z);
    if InlineAtRest(z) {
      InlineRestIsStuck(reply, z);
      if RefusedCount(z.pipe.offers) == 0 && !z.pipe.failed {
        InlineEndToEnd(reply, before + own, z);
      }
    } else {
      var ev := InlineProgresses(reply, z);
    }
  }

  /** The next step of a session that writes before it answers more. */
  lemma NextInline(reply: Frame -> Frame, x: Inline) returns (ev: InlineEvent)
    requires InlineOk(reply, x) && Unhindered(x.pipe) && !InlineAtRest(x)
    ensures InlineEnabled(x, ev) && InlineOwn(ev) && Unhindered(InlineStep(reply, x, ev).pipe)
    ensures InlineStep(reply, x, ev).recv == x.recv
  {
    hide ParsedSoFar, PipeOk, PipeStep, Offered, RefusedCount;
    if x.pipe.queue != [] {
      var w := PipeProgresses(Lv, x.pipe);
      PipeStaysUnhindered(x.pipe, w);
      ev := Write(w);
    } else if x.reader.todo == [] {
      ev := InlineEvent.EndRead;
    } else {
      AnswerIsTaken(x.pipe, reply(x.reader.todo[0]));
      ev := Answer;
    }
  }

  lemma InlineSettles(reply: Frame -> Frame, x: Inline) returns (own: seq<InlineEvent>, z: Inline)
    requires InlineOk(reply, x) && Unhindered(x.pipe)
    ensures InlineRun(reply, x, own, z) && (forall ev <- own :: InlineOwn(ev))
    ensures InlineAtRest(z) && Unhindered(z.pipe) && InlineOk(reply, z) && z.recv == x.recv
    decreases InlineWork(reply, x)
  {
    hide InlineOk, InlineWork, InlineAtRest, InlineStep, InlineEnabled, InlineOwn, Unhindered;
    if InlineAtRest(x) {
      own, z := [], x;
    } else {
      var ev := NextInline(reply, x);
      InlineStepWorks(reply, x, ev);
      InlineStepKeeps(reply, x, ev);
      own, z := InlineSettles(reply, InlineStep(reply, x, ev));
      assert ([ev] + own)[1..] == own;
      own := [ev] + own;
    }
  }

  lemma OneRead(reply: Frame -> Frame, before: seq<InlineEvent>, x: Inline, chunk: seq<Byte>)
    returns (events: seq<InlineEvent>, z: Inline)
    requires InlineRun(reply, NEW_INLINE, before, x) && ReadFailure !in before
    requires x.reader.Armed? && Unhindered(x.pipe) && 0 < |chunk| <= 2048
    requires Parse(Lv, x.recv + chunk).stop == NeedMore
    ensures InlineRun(reply, NEW_INLINE, events, z) && ReadFailure !in events && Unhindered(z.pipe)
    ensures z.recv == x.recv + chunk
  {
    ParseResumes(Lv, x.recv, chunk);
    hide Parse;
    z := InlineStep(reply, x, Read(chunk));
    assert InlineRun(reply, z, [], z);
    assert InlineRun(reply, x, [Read(chunk)], z);
    InlineRunsCompose(reply, NEW_INLINE, before, x, [Read(chunk)], z);
    events := before + [Read(chunk)];
  }

  lemma OwnIsNoReadFailure(own: seq<InlineEvent>)
    requires forall ev <- own :: InlineOwn(ev)
    ensures ReadFailure !in own
  {}

  lemma LvPrefixNeedsMore(a: seq<Byte>, b: seq<Byte>)
    requires Parse(Lv, a + b).stop == NeedMore
    ensures Parse(Lv, a).stop == NeedMore
  {
    ParseResumes(Lv, a, b);
  }

  /** Every stream without a refused or negative length can be read and answered in full: however it is
      cut into reads of 1 to 2048 bytes, some run delivers it all, goes on reading, and writes exactly
      the replies to all messages in it. */
  lemma {:induction false} EveryStreamCanBeRead(reply: Frame -> Frame, chunks: seq<seq<Byte>>)
    returns (events: seq<InlineEvent>, x: Inline)
    requires forall c <- chunks :: 0 < |c| <= 2048
    requires Parse(Lv, Concat(chunks)).stop == NeedMore
    ensures InlineRun(reply, NEW_INLINE, events, x) && x.recv == Concat(chunks) && ReadFailure !in events
    ensures InlineAtRest(x) && Unhindered(x.pipe) && x.reader.Armed?
    ensures x.pipe.wire == EncodeAll(Lv, Replies(reply, Parse(Lv, Concat(chunks)).frames))
    decreases |chunks|
  {
    var before, y := [], NEW_INLINE;
    assert InlineRun(reply, NEW_INLINE, [], NEW_INLINE) && Unhindered(NEW_INLINE.pipe);
    hide InlineOk, InlineRun, Unhindered, Parse, EncodeAll, Replies, InlineOwn;
    if chunks != [] {
      var init, last := chunks[..|chunks| - 1], chunks[|chunks| - 1];
      LvPrefixNeedsMore(Concat(init), last);
      before, y := EveryStreamCanBeRead(reply, init);
      before, y := OneRead(reply, before, y, last);
    }
    ReachableInline(reply, before, y);
    var own;
    own, x := InlineSettles(reply, y);
    InlineRunsCompose(reply, NEW_INLINE, before, y, own, x);
    OwnIsNoReadFailure(own);
    events := before + own;
    InlineReadsOn(reply, events, x);
    InlineWiresAll(reply, events, x);
  }

  lemma InlineWiresAll(reply: Frame -> Frame, events: seq<InlineEvent>, x: Inline)
    requires InlineRun(reply, NEW_INLINE, events, x) && InlineAtRest(x) && Unhindered(x.pipe)
    ensures x.pipe.wire == EncodeAll(Lv, Replies(reply, Parse(Lv, x.recv).frames))
  {
    hide InlineRun, Parse, EncodeAll, Replies, RefusedCount;
    InlineEndToEnd(reply, events, x);
  }
}
