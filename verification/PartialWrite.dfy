/** The partial-write queue of AsyncServer: `WriteToSocket`, `WriteAll2Socket` and their two kinds of
    completion callback.

    async_write_some may complete after any part of its buffer; async_send completes without error
    only when all of it is written.  `WriteAllCallBack` relies on that for the operation it belongs
    to, but continues the queue with `WriteCallBack`. */
module PartialWrites {
  import opened Codec

  /** A queued buffer and the `_cur_len` of its node. */
  datatype Job = Job(msg: seq<Byte>, cur: nat)

  datatype Callback = WriteCallBack | WriteAllCallBack

  /** An operation started on the socket: the bytes it was given, whether it is an async_send, and
      the callback bound to it. */
  datatype Op = Op(bytes: seq<Byte>, whole: bool, callback: Callback)

  datatype Writer = Writer(
    queue: seq<Job>,
    pending: bool,          // _send_pending
    ops: seq<Op>,           // operations in progress
    failed: bool,           // some operation ended with an error
    calls: seq<seq<Byte>>,  // the buffers of all write calls
    done: seq<seq<Byte>>,   // the buffers popped
    wire: seq<Byte>)

  const IDLE_WRITER := Writer([], false, [], false, [], [], [])

  // ---------------------------------------------------------------- steps

  function Rest(j: Job): seq<Byte> {
    if j.cur <= |j.msg| then j.msg[j.cur..] else []
  }

  function StartFront(w: Writer, whole: bool, callback: Callback): Writer
    requires w.queue != []
  {
    w.(ops := w.ops + [Op(Rest(w.queue[0]), whole, callback)])
  }

  /** WriteToSocket (`all` false) and WriteAll2Socket (`all` true). */
  function Called(w: Writer, buf: seq<Byte>, all: bool): Writer {
    var q := w.(queue := w.queue + [Job(buf, 0)], calls := w.calls + [buf]);
    if w.pending then q
    else
      q.(ops := q.ops + [Op(buf, all, if all then WriteAllCallBack else WriteCallBack)], pending := true)
  }

  /** What the socket may report: part of the buffer, but something if there was anything to write;
      all of it for an async_send. */
  predicate MayReport(op: Op, n: nat) {
    && n <= |op.bytes|
    && (op.bytes != [] ==> n > 0)
    && (op.whole ==> n == |op.bytes|)
  }

  function PopAndContinue(w: Writer, whole: bool): Writer
    requires w.queue != []
  {
    var q := w.(queue := w.queue[1..], done := w.done + [w.queue[0].msg], pending := |w.queue| > 1);
    if q.queue == [] then q else StartFront(q, whole, WriteCallBack)
  }

  /** Both callbacks, for an operation that wrote `n` bytes without error. */
  function Completed(w: Writer, n: nat): Writer
    requires w.ops != [] && n <= |w.ops[0].bytes| && w.queue != []
  {
    var op := w.ops[0];
    var v := w.(ops := w.ops[1..], wire := w.wire + op.bytes[..n]);
    match op.callback
    case WriteAllCallBack => PopAndContinue(v, true)
    case WriteCallBack =>
      var front := v.queue[0].(cur := v.queue[0].cur + n);
      var u := v.(queue := [front] + v.queue[1..]);
      if front.cur < |front.msg| then StartFront(u, false, WriteCallBack)
      else PopAndContinue(u, false)
  }

  /** Either callback on an error: it returns at once.  Some bytes may have got through. */
  function Broken(w: Writer, n: nat): Writer
    requires w.ops != [] && n <= |w.ops[0].bytes|
  {
    w.(ops := w.ops[1..], wire := w.wire + w.ops[0].bytes[..n], failed := true)
  }

  // ---------------------------------------------------------------- the invariant

  function Msgs(queue: seq<Job>): seq<seq<Byte>> {
    seq(|queue|, i requires 0 <= i < |queue| => queue[i].msg)
  }

  /** One operation exactly while the queue is non-empty and nothing has failed; it covers the
      unwritten part of the front node, and one bound to WriteAllCallBack is an async_send of the
      whole node. */
  predicate OneAtATime(w: Writer) {
    && w.pending == (w.queue != [])
    && |w.ops| == (if w.queue == [] || w.failed then 0 else 1)
    && (w.failed ==> w.queue != [])
    && (forall i | 0 <= i < |w.queue| :: w.queue[i].cur <= |w.queue[i].msg| && (i > 0 ==> w.queue[i].cur == 0))
    && (w.ops != [] ==>
          && w.ops[0].bytes == Rest(w.queue[0])
          && (w.ops[0].callback == WriteAllCallBack ==> w.ops[0].whole && w.queue[0].cur == 0))
  }

  /** The wire holds the completed buffers in call order and then the first `_cur_len` bytes of the
      front node; after an error possibly some more of that node. */
  predicate WireInOrder(w: Writer) {
    var before := Concat(w.done);
    && (w.queue == [] ==> w.wire == before)
    && (w.queue != [] ==>
          var j := w.queue[0];
          && j.cur <= |j.msg|
          && (!w.failed ==> w.wire == before + j.msg[..j.cur])
          && before + j.msg[..j.cur] <= w.wire <= before + j.msg)
  }

  predicate InCallOrder(w: Writer) {
    w.calls == w.done + Msgs(w.queue)
  }

  predicate WriterOk(w: Writer) {
    OneAtATime(w) && WireInOrder(w) && InCallOrder(w)
  }

  /** An operation in progress is the only one, and covers the unwritten part of the front node. */
  lemma FrontOperation(w: Writer)
    requires WriterOk(w) && w.ops != []
    ensures w.queue != [] && w.pending && w.queue[0].cur + |w.ops[0].bytes| == |w.queue[0].msg|
    ensures w.ops == [Op(Rest(w.queue[0]), w.ops[0].whole, w.ops[0].callback)]
    ensures w.ops[0].callback == WriteAllCallBack ==> w.queue[0].cur == 0
    ensures |w.queue| > 1 ==> w.queue[1].cur == 0
  {}

  /** What WriteCallBack leaves: the same front node with its rest to write, or the next one. */
  lemma AfterWriteCallBack(w: Writer, n: nat)
    requires WriterOk(w) && w.ops != [] && n <= |w.ops[0].bytes| && w.ops[0].callback == WriteCallBack
    ensures var q, front := Completed(w, n), w.queue[0].(cur := w.queue[0].cur + n);
            if front.cur < |front.msg| then
              && q.queue == [front] + w.queue[1..] && q.pending
              && q.ops == [Op(Rest(front), false, WriteCallBack)]
            else
              && q.queue == w.queue[1..] && q.pending == (q.queue != [])
              && q.ops == if q.queue == [] then [] else [Op(Rest(q.queue[0]), false, WriteCallBack)]
  {
    hide Concat, Msgs;
    var front := w.queue[0].(cur := w.queue[0].cur + n);
    assert ([front] + w.queue[1..])[1..] == w.queue[1..];
  }

  /** What WriteAllCallBack leaves: the next node, sent whole, but with the other callback. */
  lemma AfterWriteAllCallBack(w: Writer, n: nat)
    requires WriterOk(w) && w.ops != [] && n <= |w.ops[0].bytes| && w.ops[0].callback == WriteAllCallBack
    ensures var q := Completed(w, n);
            && q.queue == w.queue[1..] && q.pending == (q.queue != [])
            && q.done == w.done + [w.queue[0].msg]
            && q.ops == if q.queue == [] then [] else [Op(Rest(q.queue[0]), true, WriteCallBack)]
  {
    hide Concat, Msgs;
  }

  /** What the two calls promise on an idle session: WriteAll2Socket is through with one completion,
      which reports the whole buffer; WriteToSocket may be told of any part that is not empty. */
  lemma WholeOrInParts(w: Writer, buf: seq<Byte>, n: nat)
    requires WriterOk(w) && !w.pending
    ensures WriteEnabled(Called(w, buf, true), Complete(n)) <==> n == |buf|
    ensures n == |buf| ==> Completed(Called(w, buf, true), n).queue == []
    ensures WriteEnabled(Called(w, buf, false), Complete(n)) <==> n <= |buf| && (buf == [] || n > 0)
  {}

  lemma CallKeeps(w: Writer, buf: seq<Byte>, all: bool)
    requires WriterOk(w)
    ensures WriterOk(Called(w, buf, all))
  {
    var q := Called(w, buf, all);
    assert Msgs(q.queue) == Msgs(w.queue) + [buf];
    assert buf[..0] == [] && buf[0..] == buf;
    if w.queue != [] {
      assert q.queue[0] == w.queue[0];
    } else {
      assert q.queue == [Job(buf, 0)];
    }
  }

  lemma MsgsTail(queue: seq<Job>)
    requires queue != []
    ensures Msgs(queue) == [queue[0].msg] + Msgs(queue[1..])
  {}

  /** Popping a front node whose bytes are all on the wire. */
  lemma PopKeeps(w: Writer, whole: bool)
    requires w.queue != [] && w.ops == [] && !w.failed && w.pending
    requires forall i | 0 < i < |w.queue| :: w.queue[i].cur == 0
    requires w.wire == Concat(w.done) + w.queue[0].msg && InCallOrder(w)
    ensures WriterOk(PopAndContinue(w, whole))
  {
    var q := PopAndContinue(w, whole);
    var m := w.queue[0].msg;
    ConcatSplit(w.done, [m]);
    ConcatOne(m);
    MsgsTail(w.queue);
    hide Concat, Msgs;
    Associative(w.done, [m], Msgs(q.queue));
    if q.queue != [] {
      assert q.queue[0] == w.queue[1];
      assert q.queue[0].msg[..0] == [];
    }
  }

  /** The first `n` bytes of an operation, behind what its node has sent before. */
  lemma MoreOfTheFront(before: seq<Byte>, j: Job, n: nat)
    requires j.cur + n <= |j.msg|
    ensures before + j.msg[..j.cur] + Rest(j)[..n] == before + j.msg[..j.cur + n]
    ensures before + j.msg[..j.cur] <= before + j.msg[..j.cur + n] <= before + j.msg
  {
    assert Rest(j)[..n] == j.msg[j.cur..j.cur + n];
    MoreOfABuffer(before, j.msg, j.cur, n);
  }

  /** WriteCallBack behind a short write. */
  lemma ShortWriteKeeps(w: Writer, n: nat)
    requires WriterOk(w) && w.ops != [] && n <= |w.ops[0].bytes|
    requires w.ops[0].callback == WriteCallBack && w.queue[0].cur + n < |w.queue[0].msg|
    ensures WriterOk(Completed(w, n))
  {
    var v := Completed(w, n);
    MoreOfTheFront(Concat(w.done), w.queue[0], n);
    assert Msgs(v.queue) == Msgs(w.queue);
  }

  /** WriteCallBack behind a write that finishes the node. */
  lemma LastWriteKeeps(w: Writer, n: nat)
    requires WriterOk(w) && w.ops != [] && n <= |w.ops[0].bytes|
    requires w.ops[0].callback == WriteCallBack && w.queue[0].cur + n == |w.queue[0].msg|
    ensures WriterOk(Completed(w, n))
  {
    var j := w.queue[0];
    var u := w.(ops := [], wire := w.wire + w.ops[0].bytes[..n],
                queue := [j.(cur := j.cur + n)] + w.queue[1..]);
    MoreOfTheFront(Concat(w.done), j, n);
    assert j.msg[..|j.msg|] == j.msg;
    assert Msgs(u.queue) == Msgs(w.queue);
    PopKeeps(u, false);
  }

  /** WriteAllCallBack. */
  lemma WholeWriteKeeps(w: Writer, n: nat)
    requires WriterOk(w) && w.ops != [] && n == |w.ops[0].bytes|
    requires w.ops[0].callback == WriteAllCallBack
    ensures WriterOk(Completed(w, n))
  {
    var j := w.queue[0];
    var u := w.(ops := [], wire := w.wire + w.ops[0].bytes[..n]);
    MoreOfTheFront(Concat(w.done), j, n);
    assert j.msg[..|j.msg|] == j.msg;
    PopKeeps(u, true);
  }

  lemma CompletionKeeps(w: Writer, n: nat)
    requires WriterOk(w) && w.ops != [] && MayReport(w.ops[0], n)
    ensures WriterOk(Completed(w, n))
  {
    if w.ops[0].callback == WriteAllCallBack {
      WholeWriteKeeps(w, n);
    } else if w.queue[0].cur + n < |w.queue[0].msg| {
      ShortWriteKeeps(w, n);
    } else {
      LastWriteKeeps(w, n);
    }
  }

  /** WriteAllCallBack pops the node whatever the reported count, so it needs what async_send
      promises: the wire stays in order if and only if the whole buffer was written. */
  lemma {:induction false} WriteAllNeedsTheWholeBuffer(w: Writer, n: nat)
    requires WriterOk(w) && w.ops != [] && n <= |w.ops[0].bytes|
    requires w.ops[0].callback == WriteAllCallBack
    ensures WireInOrder(Completed(w, n)) <==> n == |w.ops[0].bytes|
  {
    if n == |w.ops[0].bytes| {
      WholeWriteKeeps(w, n);
    } else {
      var q := Completed(w, n);
      assert q.done[..|w.done|] == w.done;
      assert |Concat(q.done)| == |Concat(w.done)| + |w.queue[0].msg|;
    }
  }

  lemma BreakKeeps(w: Writer, n: nat)
    requires WriterOk(w) && w.ops != [] && n <= |w.ops[0].bytes|
    ensures WriterOk(Broken(w, n))
  {
    var j := w.queue[0];
    MoreOfTheFront(Concat(w.done), j, n);
    hide Concat, Msgs;
  }

  // ---------------------------------------------------------------- runs

  datatype WriteEvent =
    | Call(buf: seq<Byte>, all: bool)
    | Complete(n: nat)
    | Break(n: nat)

  predicate WriteEnabled(w: Writer, e: WriteEvent) {
    match e
    case Call(_, _) => true
    case Complete(n) => w.ops != [] && MayReport(w.ops[0], n)
    case Break(n) => w.ops != [] && n <= |w.ops[0].bytes|
  }

  /** A callback that meets an empty queue would be undefined in C++; here it leaves the state
      alone, and `WriteRunKeeps` shows that it never happens. */
  function WriteStep(w: Writer, e: WriteEvent): Writer
    requires WriteEnabled(w, e)
  {
    match e
    case Call(buf, all) => Called(w, buf, all)
    case Complete(n) => if w.queue == [] then w else Completed(w, n)
    case Break(n) => Broken(w, n)
  }

  lemma WriteStepKeeps(w: Writer, e: WriteEvent)
    requires WriterOk(w) && WriteEnabled(w, e)
    ensures WriterOk(WriteStep(w, e))
  {
    match e
    case Call(buf, all) => CallKeeps(w, buf, all);
    case Complete(n) => CompletionKeeps(w, n);
    case Break(n) => BreakKeeps(w, n);
  }

  /** `v` is reached from `w` by these events. */
  ghost predicate WriteRun(w: Writer, events: seq<WriteEvent>, v: Writer)
    decreases |events|
  {
    if events == [] then w == v
    else WriteEnabled(w, events[0]) && WriteRun(WriteStep(w, events[0]), events[1..], v)
  }

  lemma {:induction false} WriteRunKeeps(w: Writer, events: seq<WriteEvent>, v: Writer)
    requires WriterOk(w) && WriteRun(w, events, v)
    ensures WriterOk(v)
    decreases |events|
  {
    if events != [] {
      WriteStepKeeps(w, events[0]);
      WriteRunKeeps(WriteStep(w, events[0]), events[1..], v);
    }
  }

  /** The buffers of the write calls of a run. */
  function Buffers(events: seq<WriteEvent>): seq<seq<Byte>> {
    if events == [] then [] else (if events[0].Call? then [events[0].buf] else []) + Buffers(events[1..])
  }

  lemma {:induction false} WriteHistory(w: Writer, events: seq<WriteEvent>, v: Writer)
    requires WriteRun(w, events, v)
    ensures v.calls == w.calls + Buffers(events)
    ensures v.failed <==> w.failed || exists n :: Break(n) in events
    decreases |events|
  {
    if events == [] {
      assert w.calls + [] == w.calls;
    } else {
      var y := WriteStep(w, events[0]);
      WriteStepHistory(w, events[0]);
      WriteHistory(y, events[1..], v);
      assert events == [events[0]] + events[1..];
      hide WriteStep, WriteEnabled;
      Associative(w.calls, if events[0].Call? then [events[0].buf] else [], Buffers(events[1..]));
    }
  }

  lemma WriteStepHistory(w: Writer, e: WriteEvent)
    requires WriteEnabled(w, e)
    ensures WriteStep(w, e).calls == w.calls + if e.Call? then [e.buf] else []
    ensures WriteStep(w, e).failed <==> w.failed || e.Break?
  {
    assert w.calls + [] == w.calls;
  }

  /** For any mix of the two calls and any short writes: without an error, the wire holds the
      completed buffers in call order and the first `_cur_len` bytes of the front node.  With or
      without one, it is a prefix of all buffers in call order. */
  lemma PartialWritesStayInOrder(events: seq<WriteEvent>, w: Writer)
    requires WriteRun(IDLE_WRITER, events, w)
    ensures w.calls == Buffers(events) == w.done + Msgs(w.queue)
    ensures w.failed <==> exists n :: Break(n) in events
    ensures w.queue != [] ==> w.queue[0].cur <= |w.queue[0].msg|
    ensures !w.failed ==>
              w.wire == Concat(w.done) + if w.queue == [] then [] else w.queue[0].msg[..w.queue[0].cur]
    ensures w.wire <= Concat(w.calls)
    ensures w.queue == [] ==> w.wire == Concat(w.calls)
    ensures w.pending <==> w.queue != []
    ensures forall n: nat :: w.ops != [] && n <= |w.ops[0].bytes| ==> WriteEnabled(w, Break(n))
  {
    hide WriteRun;
    WriteRunKeeps(IDLE_WRITER, events, w);
    WriteHistory(IDLE_WRITER, events, w);
    assert [] + Buffers(events) == Buffers(events);
    assert Concat(w.done) + [] == Concat(w.done);
    CallsInOneRow(w);
  }

  lemma CallsInOneRow(w: Writer)
    requires InCallOrder(w)
    ensures w.queue == [] ==> Concat(w.calls) == Concat(w.done)
    ensures w.queue != [] ==> Concat(w.done) + w.queue[0].msg <= Concat(w.calls)
  {
    if w.queue == [] {
      assert w.done + Msgs(w.queue) == w.done;
    } else {
      var front, others := [w.queue[0].msg], Msgs(w.queue)[1..];
      assert Msgs(w.queue) == front + others;
      hide Concat, Msgs;
      ConcatSplit(w.done, front + others);
      ConcatSplit(front, others);
      ConcatOne(w.queue[0].msg);
      Associative(Concat(w.done), w.queue[0].msg, Concat(others));
    }
  }

  lemma ConcatOne(buf: seq<Byte>)
    ensures Concat([buf]) == buf
  {
    assert [buf][..0] == [];
  }

  lemma {:induction false} ConcatSplit(a: seq<seq<Byte>>, b: seq<seq<Byte>>)
    ensures Concat(a + b) == Concat(a) + Concat(b)
    decreases |b|
  {
    if b == [] {
      assert a + b == a;
    } else {
      var m := |b| - 1;
      ConcatSplit(a, b[..m]);
      assert (a + b)[..|a| + m] == a + b[..m];
      Associative(Concat(a), Concat(b[..m]), b[m]);
    }
  }

  // ---------------------------------------------------------------- progress

  function RemainingBytes(queue: seq<Job>): nat {
    if queue == [] then 0 else |Rest(queue[0])| + RemainingBytes(queue[1..])
  }

  /** Bytes still to be written plus nodes still queued. */
  function Measure(w: Writer): nat {
    RemainingBytes(w.queue) + |w.queue|
  }

  /** Every successful completion makes progress. */
  lemma CompletionProgresses(w: Writer, n: nat)
    requires WriterOk(w) && w.ops != [] && MayReport(w.ops[0], n)
    ensures Measure(Completed(w, n)) < Measure(w)
  {
    var j := w.queue[0];
    var u := [j.(cur := j.cur + n)] + w.queue[1..];
    assert u[1..] == w.queue[1..];
  }

  /** With no new call and no error the queue empties: as long as it is not empty some completion is
      possible, no more completions than `Measure` can follow, and where none is possible any more
      nothing is queued or pending. */
  lemma {:induction false} TheQueueEmpties(w: Writer, events: seq<WriteEvent>, v: Writer)
    requires WriterOk(w) && !w.failed && WriteRun(w, events, v)
    requires forall e <- events :: e.Complete?
    ensures |events| + Measure(v) <= Measure(w)
    ensures v.queue != [] <==> exists n: nat :: WriteEnabled(v, Complete(n))
    ensures !v.pending <==> v.queue == []
    decreases |events|
  {
    if events == [] {
      if v.queue != [] {
        assert WriteEnabled(v, Complete(|v.ops[0].bytes|));
      }
    } else {
      var next := WriteStep(w, events[0]);
      WriteStepKeeps(w, events[0]);
      assert events[0] in events;
      CompletionProgresses(w, events[0].n);
      TheQueueEmpties(next, events[1..], v);
    }
  }

  // ---------------------------------------------------------------- the class

  class WriteNode {
    const msg: array<Byte>
    var curLen: nat

    constructor (buf: seq<Byte>)
      ensures fresh(msg) && msg[..] == buf && curLen == 0
    {
      msg := new Byte[|buf|](i requires 0 <= i < |buf| => buf[i]);
      curLen := 0;
    }
  }

  /** The nodes, all different, hold these buffers and counts. */
  ghost predicate Hold(nodes: seq<WriteNode>, jobs: seq<Job>)
    reads nodes, set n | n in nodes :: n.msg
  {
    && |nodes| == |jobs|
    && (forall i | 0 <= i < |nodes| :: nodes[i].msg[..] == jobs[i].msg && nodes[i].curLen == jobs[i].cur)
    && (forall i, j | 0 <= i < j < |nodes| :: nodes[i] != nodes[j])
  }

  lemma HoldFront(nodes: seq<WriteNode>, jobs: seq<Job>)
    requires Hold(nodes, jobs)
    ensures |nodes| == |jobs|
    ensures jobs != [] ==> nodes[0].curLen == jobs[0].cur && nodes[0].msg.Length == |jobs[0].msg|
    ensures jobs != [] && jobs[0].cur <= |jobs[0].msg| ==> nodes[0].msg[nodes[0].curLen..] == Rest(jobs[0])
  {}

  lemma HoldTail(nodes: seq<WriteNode>, jobs: seq<Job>)
    requires Hold(nodes, jobs) && nodes != []
    ensures Hold(nodes[1..], jobs[1..])
  {}

  /** More of the front buffer is written. */
  method AddWritten(nodes: seq<WriteNode>, n: nat, ghost jobs: seq<Job>)
    requires Hold(nodes, jobs) && nodes != []
    modifies nodes[0]
    ensures Hold(nodes, [jobs[0].(cur := jobs[0].cur + n)] + jobs[1..])
  {
    nodes[0].curLen := nodes[0].curLen + n;
  }

  /** The writing half of AsyncServer's Session. */
  class Session {
    var sendQueue: seq<WriteNode>
    var sendPending: bool
    /** The operations started on the socket and not yet completed. */
    var ops: seq<Op>
    ghost var w: Writer

    ghost predicate Valid()
      reads this, sendQueue, set n | n in sendQueue :: n.msg
    {
      && WriterOk(w)
      && sendPending == w.pending && ops == w.ops
      && Hold(sendQueue, w.queue)
    }

    constructor ()
      ensures Valid() && w == IDLE_WRITER
    {
      sendQueue, sendPending, ops, w := [], false, [], IDLE_WRITER;
    }

    method AsyncWriteSome(bytes: seq<Byte>)
      modifies this`ops
      ensures ops == old(ops) + [Op(bytes, false, WriteCallBack)]
    {
      ops := ops + [Op(bytes, false, WriteCallBack)];
    }

    method AsyncSend(bytes: seq<Byte>, callback: Callback)
      modifies this`ops
      ensures ops == old(ops) + [Op(bytes, true, callback)]
    {
      ops := ops + [Op(bytes, true, callback)];
    }

    /** The end of both callbacks: pop, and start the next node if there is one. */
    method PopAndStartNext(whole: bool)
      requires sendQueue != [] && (|sendQueue| > 1 ==> sendQueue[1].curLen <= sendQueue[1].msg.Length)
      modifies this`sendQueue, this`sendPending, this`ops
      ensures sendQueue == old(sendQueue)[1..]
      ensures sendPending == (old(sendPending) && sendQueue != [])
      ensures ops == old(ops) +
                     if sendQueue == [] then []
                     else [Op(sendQueue[0].msg[sendQueue[0].curLen..], whole, WriteCallBack)]
    {
      sendQueue := sendQueue[1..];
      if sendQueue == [] {
        sendPending := false;
        return;
      }
      var node := sendQueue[0];
      if whole {
        AsyncSend(node.msg[node.curLen..], WriteCallBack);
      } else {
        AsyncWriteSome(node.msg[node.curLen..]);
      }
    }

    /** The queue is this one with a node for the buffer behind it, of which nothing is written. */
    ghost predicate Appended(before: seq<WriteNode>, buf: seq<Byte>)
      reads this, sendQueue, set n | n in sendQueue :: n.msg
    {
      && |sendQueue| == |before| + 1 && sendQueue[..|before|] == before
      && sendQueue[|before|].msg[..] == buf && sendQueue[|before|].curLen == 0
    }

    method WriteToSocket(buf: seq<Byte>)
      requires Valid()
      modifies this
      ensures Valid() && w == Called(old(w), buf, false)
      ensures sendPending && Appended(old(sendQueue), buf)
      ensures ops == if old(sendPending) then old(ops) else [Op(buf, false, WriteCallBack)]
    {
      assert !sendPending ==> ops == [];
      CallKeeps(w, buf, false);
      w := Called(w, buf, false);
      var node := new WriteNode(buf);
      sendQueue := sendQueue + [node];
      if sendPending {
        return;
      }
      AsyncWriteSome(buf);
      sendPending := true;
    }

    method WriteAll2Socket(buf: seq<Byte>)
      requires Valid()
      modifies this
      ensures Valid() && w == Called(old(w), buf, true)
      ensures sendPending && Appended(old(sendQueue), buf)
      ensures ops == if old(sendPending) then old(ops) else [Op(buf, true, WriteAllCallBack)]
    {
      assert !sendPending ==> ops == [];
      CallKeeps(w, buf, true);
      w := Called(w, buf, true);
      var node := new WriteNode(buf);
      sendQueue := sendQueue + [node];
      if sendPending {
        return;
      }
      AsyncSend(buf, WriteAllCallBack);
      sendPending := true;
    }

    /** With `cur` bytes of its front node written: the rest of it is sent next, or, where there is
        none, the next node, by async_write_some and with WriteCallBack in both cases. */
    ghost predicate Advanced(before: seq<WriteNode>, cur: nat)
      requires before != []
      reads this, before, set n | n in before :: n.msg
    {
      && before[0].curLen == cur
      && if cur < before[0].msg.Length then
           sendQueue == before && sendPending && ops == [Op(before[0].msg[cur..], false, WriteCallBack)]
         else NextStarted(before, false)
    }

    /** The front node is gone and the next one started. */
    ghost predicate NextStarted(before: seq<WriteNode>, whole: bool)
      requires before != []
      reads this, before, set n | n in before :: n.msg
    {
      && sendQueue == before[1..] && sendPending == (sendQueue != [])
      && ops == if sendQueue == [] then [] else [Op(sendQueue[0].msg[..], whole, WriteCallBack)]
    }

    /** WriteCallBack for the operation in progress, of which `n` bytes were written. */
    method OnWrite(error: bool, n: nat)
      requires Valid() && ops != [] && ops[0].callback == WriteCallBack
      requires if error then n <= |ops[0].bytes| else MayReport(ops[0], n)
      modifies this, if sendQueue == [] then {} else {sendQueue[0]}
      ensures Valid()
      ensures w == if error then Broken(old(w), n) else Completed(old(w), n)
      ensures error ==> sendQueue == old(sendQueue) && sendPending == old(sendPending) && ops == old(ops)[1..]
      ensures !error ==> Advanced(old(sendQueue), old(sendQueue[0].curLen) + n)
    {
      hide WriterOk, Completed, Concat, Msgs, Rest, Hold;
      FrontOperation(w);
      if error {
        BreakKeeps(w, n);
        w := Broken(w, n);
        ops := ops[1..];
        return;
      }
      Written(n);
    }

    /** The same behind the error check. */
    method Written(n: nat)
      requires Valid() && ops != [] && ops[0].callback == WriteCallBack && MayReport(ops[0], n)
      modifies this, if sendQueue == [] then {} else {sendQueue[0]}
      ensures Valid() && w == Completed(old(w), n)
      ensures Advanced(old(sendQueue), old(sendQueue[0].curLen) + n)
    {
      hide WriterOk, Completed, Concat, Msgs, Rest, Hold;
      FrontOperation(w);
      HoldFront(sendQueue, w.queue);
      CompletionKeeps(w, n);
      AfterWriteCallBack(w, n);
      w := Completed(w, n);
      ops := ops[1..];
      AddWritten(sendQueue, n, old(w).queue);
      ghost var jobs := [old(w).queue[0].(cur := old(w).queue[0].cur + n)] + old(w).queue[1..];
      HoldFront(sendQueue, jobs);
      var node := sendQueue[0];
      if node.curLen < node.msg.Length {
        AsyncWriteSome(node.msg[node.curLen..]);
        return;
      }
      assert jobs[1..] == w.queue;
      HoldTail(sendQueue, jobs);
      HoldFront(sendQueue[1..], w.queue);
      PopAndStartNext(false);
    }

    /** WriteAllCallBack for the operation in progress. */
    method OnWriteAll(error: bool, n: nat)
      requires Valid() && ops != [] && ops[0].callback == WriteAllCallBack
      requires if error then n <= |ops[0].bytes| else MayReport(ops[0], n)
      modifies this
      ensures Valid()
      ensures w == if error then Broken(old(w), n) else Completed(old(w), n)
      ensures error ==> sendQueue == old(sendQueue) && sendPending == old(sendPending) && ops == old(ops)[1..]
      ensures !error ==> NextStarted(old(sendQueue), true)
    {
      hide WriterOk, Concat, Msgs, Rest, Hold;
      FrontOperation(w);
      HoldFront(sendQueue, w.queue);
      ops := ops[1..];
      if error {
        BreakKeeps(w, n);
        w := Broken(w, n);
        return;
      }
      CompletionKeeps(w, n);
      w := Completed(w, n);
      HoldTail(sendQueue, old(w).queue);
      HoldFront(sendQueue[1..], old(w).queue[1..]);
      PopAndStartNext(true);
    }
  }
}
