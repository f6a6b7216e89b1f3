/** The receiving side of a session, with the server's session map.

    `CSession.HandleRead` is the resumable parser of LogicServer (`Tlv`) and of AsyncEchoServer2 and
    JsonServer (`Lv`); the three loops are the same code up to the header layout. */
module Sessions {
  import opened Codec
  import opened MsgNodes

  /** The acceptor, and the map that keeps sessions alive. */
  class CServer {
    const fmt: Format
    var sessions: map<string, CSession>
    /** The session of the async_accept in progress. */
    var accepting: CSession?

    /** One accept is armed, with a session that has not started yet. */
    ghost predicate Listening(uuid: string)
      reads this
      reads if accepting == null then {} else {accepting, accepting.recvHeadNode, accepting.recvHeadNode.data}
      reads if accepting == null || accepting.recvMsgNode == null then {}
            else {accepting.recvMsgNode, accepting.recvMsgNode.data}
      reads if accepting == null then {} else set p | p in accepting.posted
      reads if accepting == null then {} else set p | p in accepting.posted :: p.data
    {
      && accepting != null && accepting.Valid() && accepting.uuid == uuid && accepting.server == this
      && accepting.received == [] && accepting.readsArmed == 0
    }

    constructor (fmt: Format, uuid: string)
      ensures sessions == map[] && Listening(uuid) && fresh(accepting) && fresh(accepting.Used()) && this.fmt == fmt
    {
      this.fmt, this.sessions, this.accepting := fmt, map[], null;
      new;
      StartAccept(uuid);
    }

    method ClearSession(uuid: string)
      modifies this`sessions
      ensures sessions == old(sessions) - {uuid}
    {
      sessions := sessions - {uuid};
    }

    /** A new session waits for the next connection. */
    method StartAccept(uuid: string)
      modifies this`accepting
      ensures Listening(uuid) && fresh(accepting) && fresh(accepting.Used())
    {
      accepting := new CSession(fmt, uuid, this);
    }

    /** std::map::insert keeps an entry that is there. */
    method Insert(session: CSession)
      modifies this`sessions
      ensures sessions == if session.uuid in old(sessions) then old(sessions)
                          else old(sessions)[session.uuid := session]
    {
      if session.uuid !in sessions {
        sessions := sessions[session.uuid := session];
      }
    }

    /** The session that was waiting starts to read and enters the map, unless its uuid is taken;
        on an error it is dropped.  In both cases the next accept is armed. */
    method HandleAccept(error: bool, uuid: string, next: string)
      requires Listening(uuid)
      modifies this, accepting`readsArmed, accepting.data
      ensures old(accepting).Valid() && old(accepting).readsArmed == if error then 0 else 1
      ensures sessions == if error || uuid in old(sessions) then old(sessions)
                          else old(sessions)[uuid := old(accepting)]
      ensures old(accepting).Used() == old(accepting.Used())
      ensures Listening(next) && fresh(accepting) && fresh(accepting.Used())
    {
      var session := accepting;
      if !error {
        session.Start();
        Insert(session);
      }
      StartAccept(next);
    }
  }

  /** How one turn of the parsing loop ends. */
  datatype Outcome = Message | Kept | HeadRefused

  class CSession {
    const fmt: Format
    const uuid: string
    const server: CServer

    const data: array<Byte>
    const recvHeadNode: MsgNode
    var recvMsgNode: MsgNode?
    var bHeadParse: bool
    var closed: bool

    /** async_read_some operations started and not yet completed. */
    var readsArmed: nat
    /** The nodes handed on, in order: each element is one call of PostMsg2Que (in the 2-byte
        servers, one call of Send with the reply to that node). */
    var posted: seq<MsgNode>

    /** Every byte that successful reads have delivered. */
    ghost var received: seq<Byte>
    /** The frame each posted node held at the moment it was posted. */
    ghost var log: seq<Frame>

    ghost predicate Shape()
      reads this, recvHeadNode, recvHeadNode.data
      reads if recvMsgNode == null then {} else {recvMsgNode}
    {
      && data.Length == MAX_LENGTH
      && recvHeadNode.Valid()
      && recvHeadNode.totalLen == fmt.HeadLen()
      && recvHeadNode.curLen < fmt.HeadLen()
      && recvHeadNode.data != data
      && (bHeadParse ==> BodyOpen() && recvMsgNode.curLen < recvMsgNode.totalLen)
    }

    /** The header node holds an accepted header and the message node is the buffer made for it. */
    ghost predicate BodyOpen()
      reads this, recvHeadNode, recvHeadNode.data
      reads if recvMsgNode == null then {} else {recvMsgNode}
    {
      && recvHeadNode.Valid() && recvHeadNode.totalLen == fmt.HeadLen()
      && recvMsgNode != null
      && recvMsgNode.Valid()
      && recvMsgNode != recvHeadNode
      && recvMsgNode.data != data && recvMsgNode.data != recvHeadNode.data
      && CheckHead(fmt, recvHeadNode.data[..fmt.HeadLen()])
         == Accept(recvMsgNode.id, recvMsgNode.totalLen)
    }

    /** The node holds exactly this frame, completely, with a zero behind it. */
    ghost static predicate Holds(p: MsgNode, f: Frame)
      reads p, p.data
    {
      && p.Valid() && p.curLen == p.totalLen && p.id == f.id
      && p.data[..p.totalLen] == f.body && p.data[p.totalLen] == 0
    }

    /** The objects the session writes to or has handed on. */
    ghost function Used(): set<object>
      reads this`recvMsgNode, this`posted
    {
      With(recvMsgNode, posted)
    }

    /** The buffers the next read may write to. */
    ghost function Buffers(): set<object>
      reads this
    {
      {data, recvHeadNode, recvHeadNode.data}
      + if bHeadParse && recvMsgNode != null then {recvMsgNode, recvMsgNode.data} else {}
    }

    ghost function With(node: MsgNode?, nodes: seq<MsgNode>): set<object> {
      {data, recvHeadNode, recvHeadNode.data}
      + (if node == null then {} else {node, node.data})
      + (set p | p in nodes) + (set p | p in nodes :: p.data)
    }

    /** Every posted node still holds what it held when it was posted, and none of its memory is
        memory the session will write to. */
    ghost predicate PostedFrozen()
      reads this, posted, set p | p in posted :: p.data
    {
      && |posted| == |log|
      && (forall i | 0 <= i < |posted| :: Holds(posted[i], log[i]))
      && (forall p <- posted :: p != recvHeadNode && p.data != data && p.data != recvHeadNode.data)
      && (bHeadParse ==> BodyNodeIsOwn())
    }

    ghost predicate BodyNodeIsOwn()
      reads this
    {
      recvMsgNode != null && forall p <- posted :: p != recvMsgNode && p.data != recvMsgNode.data
    }

    /** The bytes kept between two reads. */
    ghost function Pending(): seq<Byte>
      requires Shape()
      reads this, recvHeadNode, recvHeadNode.data
      reads if recvMsgNode == null then {} else {recvMsgNode, recvMsgNode.data}
    {
      if bHeadParse then recvHeadNode.data[..fmt.HeadLen()] + recvMsgNode.Filled()
      else recvHeadNode.Filled()
    }

    /** The session has posted the frames of the stream received so far and, as long as no header
        was refused, keeps exactly the unparsed rest. */
    ghost predicate UpToDate()
      reads this, recvHeadNode, recvHeadNode.data
      reads if recvMsgNode == null then {} else {recvMsgNode, recvMsgNode.data}
      reads posted, set p | p in posted :: p.data
    {
      && Shape()
      && PostedFrozen()
      && var p := Parse(fmt, received);
      && log == p.frames
      && p.stop != NegativeLength
      && (p.stop == NeedMore ==> p.rest == Pending())
    }

    /** And it reads on only as long as that is so. */
    ghost predicate Valid()
      reads this, recvHeadNode, recvHeadNode.data
      reads if recvMsgNode == null then {} else {recvMsgNode, recvMsgNode.data}
      reads posted, set p | p in posted :: p.data
    {
      UpToDate() && readsArmed <= 1 && (readsArmed == 1 ==> Parse(fmt, received).stop == NeedMore)
    }

    constructor (fmt: Format, uuid: string, server: CServer)
      ensures Valid() && fresh(Used())
      ensures this.fmt == fmt && this.uuid == uuid && this.server == server
      ensures received == [] && posted == [] && readsArmed == 0 && !bHeadParse && !closed
    {
      this.fmt, this.uuid, this.server := fmt, uuid, server;
      this.data := new Byte[MAX_LENGTH];
      this.recvHeadNode := new MsgNode.ForReceiving(fmt.HeadLen(), 0);
      this.recvMsgNode, this.bHeadParse, this.closed := null, false, false;
      this.readsArmed, this.posted, this.received, this.log := 0, [], [], [];
    }

    /** memset of the read buffer and a new async_read_some. */
    method ArmRead()
      requires UpToDate()
      modifies this`readsArmed, data
      ensures UpToDate() && readsArmed == old(readsArmed) + 1
      ensures forall i | 0 <= i < data.Length :: data[i] == 0
    {
      Memset(data, MAX_LENGTH);
      readsArmed := readsArmed + 1;
    }

    method Start()
      requires Valid() && received == [] && readsArmed == 0
      modifies this`readsArmed, data
      ensures Valid() && readsArmed == 1
    {
      ArmRead();
    }

    /** An incomplete header is kept. */
    method KeepHeadPart(src: seq<Byte>)
      requires Shape() && PostedFrozen() && !bHeadParse
      requires recvHeadNode.curLen + |src| < fmt.HeadLen()
      modifies recvHeadNode, recvHeadNode.data
      ensures Shape() && PostedFrozen()
      ensures Pending() == old(Pending()) + src
    {
      Memcpy(recvHeadNode.data, recvHeadNode.curLen, src);
      recvHeadNode.curLen := recvHeadNode.curLen + |src|;
    }

    /** The header is completed in place; its fill count stays as it was. */
    method CompleteHead(src: seq<Byte>)
      requires Shape() && PostedFrozen() && !bHeadParse
      requires recvHeadNode.curLen + |src| == fmt.HeadLen()
      modifies recvHeadNode.data
      ensures Shape() && PostedFrozen()
      ensures recvHeadNode.data[..fmt.HeadLen()] == old(Pending()) + src
    {
      Memcpy(recvHeadNode.data, recvHeadNode.curLen, src);
      var h := recvHeadNode.curLen;
      assert recvHeadNode.data[..fmt.HeadLen()] == recvHeadNode.data[..h] + recvHeadNode.data[h..h + |src|];
    }

    /** A new node replaces the last one, which by then belongs to the receiver of the message. */
    method OpenBody(id: Short, len: nat)
      requires Shape() && PostedFrozen() && !bHeadParse
      requires CheckHead(fmt, recvHeadNode.data[..fmt.HeadLen()]) == Accept(id, len)
      modifies this`recvMsgNode
      ensures Shape() && PostedFrozen() && BodyOpen() && BodyNodeIsOwn()
      ensures recvMsgNode != null && recvMsgNode.Valid() && recvMsgNode.Filled() == []
      ensures fresh(recvMsgNode) && fresh(recvMsgNode.data) && recvMsgNode.curLen == 0
      ensures recvMsgNode.id == id && recvMsgNode.totalLen == len
      ensures forall o <- Used() :: o in old(Used()) || fresh(o)
    {
      recvMsgNode := new MsgNode.ForReceiving(len, id);
    }

    /** An incomplete body is kept. */
    method KeepBodyPart(src: seq<Byte>)
      requires Shape() && PostedFrozen() && BodyOpen() && BodyNodeIsOwn()
      requires recvMsgNode.curLen + |src| < recvMsgNode.totalLen
      modifies this`bHeadParse, recvMsgNode, recvMsgNode.data
      ensures Shape() && PostedFrozen() && bHeadParse
      ensures Pending() == recvHeadNode.data[..fmt.HeadLen()] + old(recvMsgNode.Filled()) + src
    {
      Memcpy(recvMsgNode.data, recvMsgNode.curLen, src);
      recvMsgNode.curLen := recvMsgNode.curLen + |src|;
      bHeadParse := true;
    }

    method FillBody(src: seq<Byte>)
      requires recvMsgNode != null && recvMsgNode.Valid()
      requires recvMsgNode.curLen + |src| == recvMsgNode.totalLen && recvMsgNode.totalLen <= MAX_LENGTH
      modifies recvMsgNode, recvMsgNode.data
      ensures Holds(recvMsgNode, Packet(recvMsgNode.id, old(recvMsgNode.Filled()) + src))
    {
      var at := recvMsgNode.curLen;
      Memcpy(recvMsgNode.data, at, src);
      recvMsgNode.curLen := at + |src|;
      recvMsgNode.data[recvMsgNode.totalLen] := 0;
      assert recvMsgNode.data[..at] == old(recvMsgNode.Filled());
      assert recvMsgNode.data[at..at + |src|] == src;
    }

    /** The body is completed, the node posted, and the header node cleared for the next message. */
    method CompleteBody(src: seq<Byte>)
      requires Shape() && PostedFrozen() && BodyOpen() && BodyNodeIsOwn()
      requires recvMsgNode.curLen + |src| == recvMsgNode.totalLen
      modifies this`bHeadParse, this`posted, this`log
      modifies recvMsgNode, recvMsgNode.data, recvHeadNode, recvHeadNode.data
      ensures Shape() && PostedFrozen() && !bHeadParse && Pending() == []
      ensures posted == old(posted) + [recvMsgNode]
      ensures log == old(log) + [Packet(recvMsgNode.id, old(recvMsgNode.Filled()) + src)]
      ensures Used() == old(Used())
    {
      hide With, CheckHead;
      bHeadParse := false;
      FillBody(src);
      recvHeadNode.Clear();
      log := log + [Packet(recvMsgNode.id, old(recvMsgNode.Filled()) + src)];
      posted := posted + [recvMsgNode];
      HandingOnTakesNothing(recvMsgNode, old(posted));
    }

    lemma HandingOnTakesNothing(node: MsgNode, nodes: seq<MsgNode>)
      ensures With(node, nodes + [node]) == With(node, nodes)
    {}

    /** A turn of the parsing loop that starts at a header, complete or not. */
    method HeadTurn(ghost rem: seq<Byte>, copyLen: nat, bytes: nat)
      returns (outcome: Outcome, used: nat, ghost f: Frame)
      requires Shape() && PostedFrozen() && !bHeadParse
      requires 0 < bytes && copyLen + bytes <= data.Length
      requires rem == Pending() + data[copyLen..copyLen + bytes]
      requires !StartsWith(fmt, rem, Negative)
      modifies this`bHeadParse, this`posted, this`log, this`recvMsgNode, recvHeadNode, recvHeadNode.data
      ensures Shape() && PostedFrozen() && 0 < used <= bytes
      ensures Progress(rem, data[copyLen + used..copyLen + bytes], outcome, f)
      ensures Handed(old(posted), old(log), outcome, f)
      ensures forall o <- Used() :: o in old(Used()) || fresh(o)
    {
      hide PostedFrozen, BodyOpen, CheckHead, Encode, Legal, Used;
      var h := fmt.HeadLen();
      if recvHeadNode.curLen + bytes < h {
        KeepHeadPart(data[copyLen..copyLen + bytes]);
        return Kept, bytes, Packet(0, []);
      }
      var headRemain := h - recvHeadNode.curLen;
      var from := copyLen + headRemain;
      CutAt(Pending(), copyLen, from, copyLen + bytes);
      CompleteHead(data[copyLen..from]);
      assert rem[..h] == recvHeadNode.data[..h];
      match CheckHead(fmt, recvHeadNode.data[..h])
      case Refuse => return HeadRefused, headRemain, Packet(0, []);
      case Accept(id, len) =>
        outcome, used, f := FirstBodyTurn(rem, from, bytes - headRemain, id, len);
        used := headRemain + used;
    }

    /** The rest of the same turn, behind an accepted header: a new message node and as much of its
        body as the chunk holds, possibly nothing. */
    method FirstBodyTurn(ghost rem: seq<Byte>, from: nat, bytes: nat, id: Short, len: nat)
      returns (outcome: Outcome, used: nat, ghost f: Frame)
      requires Shape() && PostedFrozen() && !bHeadParse
      requires from + bytes <= data.Length
      requires CheckHead(fmt, recvHeadNode.data[..fmt.HeadLen()]) == Accept(id, len)
      requires rem == recvHeadNode.data[..fmt.HeadLen()] + data[from..from + bytes]
      modifies this`bHeadParse, this`posted, this`log, this`recvMsgNode, recvHeadNode, recvHeadNode.data
      ensures Shape() && PostedFrozen() && used <= bytes
      ensures Progress(rem, data[from + used..from + bytes], outcome, f) && outcome != HeadRefused
      ensures Handed(old(posted), old(log), outcome, f)
      ensures forall o <- Used() :: o in old(Used()) || fresh(o)
    {
      hide PostedFrozen, BodyOpen, BodyNodeIsOwn, CheckHead, Encode, Legal, Used;
      ghost var head := recvHeadNode.data[..fmt.HeadLen()];
      assert rem[..fmt.HeadLen()] == head;
      OpenBody(id, len);
      if bytes < len {
        assert head + [] == head;
        KeepBodyPart(data[from..from + bytes]);
        return Kept, bytes, Packet(0, []);
      }
      CutAt(head, from, from + len, from + bytes);
      f := WholeBody(rem, from, bytes);
      outcome, used := Message, len;
    }

    /** The chunk holds the whole body. */
    method WholeBody(ghost rem: seq<Byte>, from: nat, bytes: nat) returns (ghost f: Frame)
      requires Shape() && PostedFrozen() && !bHeadParse && BodyOpen() && BodyNodeIsOwn()
      requires recvMsgNode.Filled() == [] && recvMsgNode.totalLen <= bytes && from + bytes <= data.Length
      requires rem == recvHeadNode.data[..fmt.HeadLen()] + data[from..from + recvMsgNode.totalLen]
                      + data[from + recvMsgNode.totalLen..from + bytes]
      modifies this`bHeadParse, this`posted, this`log, recvHeadNode, recvHeadNode.data
      modifies recvMsgNode, recvMsgNode.data
      ensures Shape() && PostedFrozen() && Used() == old(Used())
      ensures Progress(rem, data[from + recvMsgNode.totalLen..from + bytes], Message, f)
      ensures Handed(old(posted), old(log), Message, f)
    {
      hide CheckHead, Encode, Legal, Used;
      var body := data[from..from + recvMsgNode.totalLen];
      f := Packet(recvMsgNode.id, body);
      FrameFound(fmt, recvHeadNode.data[..fmt.HeadLen()], body);
      assert [] + body == body;
      CompleteBody(body);
    }

    /** The bytes of a chunk, cut in two behind what was kept before. */
    lemma CutAt(kept: seq<Byte>, i: nat, j: nat, k: nat)
      requires i <= j <= k <= data.Length
      ensures kept + data[i..k] == kept + data[i..j] + data[j..k]
    {
      assert data[i..k] == data[i..j] + data[j..k];
    }

    /** A turn of the parsing loop that starts inside a body. */
    method BodyTurn(ghost rem: seq<Byte>, copyLen: nat, bytes: nat)
      returns (outcome: Outcome, used: nat, ghost f: Frame)
      requires Shape() && PostedFrozen() && bHeadParse
      requires 0 < bytes && copyLen + bytes <= data.Length
      requires rem == Pending() + data[copyLen..copyLen + bytes]
      modifies this`bHeadParse, this`posted, this`log, recvHeadNode, recvHeadNode.data
      modifies recvMsgNode, recvMsgNode.data
      ensures Shape() && PostedFrozen() && 0 < used <= bytes
      ensures Progress(rem, data[copyLen + used..copyLen + bytes], outcome, f)
      ensures Handed(old(posted), old(log), outcome, f)
      ensures forall o <- Used() :: o in old(Used()) || fresh(o)
    {
      hide CheckHead, Encode, Legal, Used;
      f, used := Packet(0, []), bytes;
      ghost var h := fmt.HeadLen();
      assert rem[..h] == recvHeadNode.data[..h];
      var msgRemain := recvMsgNode.totalLen - recvMsgNode.curLen;
      if bytes < msgRemain {
        KeepBodyPart(data[copyLen..copyLen + bytes]);
        return Kept, used, f;
      }
      var from := copyLen + msgRemain;
      var last := data[copyLen..from];
      CutAt(Pending(), copyLen, from, copyLen + bytes);
      Associative(recvHeadNode.data[..h], recvMsgNode.Filled(), last);
      f := Packet(recvMsgNode.id, recvMsgNode.Filled() + last);
      FrameFound(fmt, rem[..h], f.body);
      CompleteBody(last);
      outcome, used := Message, msgRemain;
    }

    /** What a turn does to the bytes in front of it: it takes one frame off them, or keeps them
        all, or meets a header that is refused. */
    ghost predicate Progress(rem: seq<Byte>, left: seq<Byte>, outcome: Outcome, f: Frame)
      requires Shape()
      reads this, recvHeadNode, recvHeadNode.data
      reads if recvMsgNode == null then {} else {recvMsgNode, recvMsgNode.data}
    {
      match outcome
      case Message =>
        !bHeadParse && Pending() == [] && Legal(fmt, f) && rem == Encode(fmt, f) + left
      case Kept => left == [] && Pending() == rem && Unfinished(fmt, rem)
      case HeadRefused => StartsWith(fmt, rem, Refuse)
    }

    /** What a turn hands on. */
    ghost predicate Handed(nodes: seq<MsgNode>, frames: seq<Frame>, outcome: Outcome, f: Frame)
      reads this
    {
      && nodes <= posted
      && log == frames + if outcome == Message then [f] else []
    }

    lemma AccountGrows(whole: seq<Byte>, got: seq<Frame>, tail: seq<Byte>, f: Frame, left: seq<Byte>)
      requires Account(whole, got, tail) && Legal(fmt, f) && tail == Encode(fmt, f) + left
      ensures Account(whole, got + [f], left)
    {
      OneMoreFrame(fmt, whole, got, f, left);
    }

    /** Between two turns: the bytes in front of the loop are those kept and those of the chunk that
        are not yet consumed, and they complete the account of the whole. */
    ghost predicate Running(whole: seq<Byte>, got: seq<Frame>, tail: seq<Byte>, copyLen: nat, bytes: nat)
      reads this, data, recvHeadNode, recvHeadNode.data
      reads if recvMsgNode == null then {} else {recvMsgNode, recvMsgNode.data}
    {
      && Shape()
      && copyLen + bytes <= data.Length
      && tail == Pending() + data[copyLen..copyLen + bytes]
      && Account(whole, got, tail)
      && (bytes == 0 ==> Pending() == [])
    }

    /** After the last turn: what was found, and the tail without a frame. */
    ghost predicate Finished(whole: seq<Byte>, got: seq<Frame>, tail: seq<Byte>, outcome: Outcome)
      reads this, recvHeadNode, recvHeadNode.data
      reads if recvMsgNode == null then {} else {recvMsgNode, recvMsgNode.data}
    {
      && Shape()
      && Account(whole, got, tail)
      && if outcome == HeadRefused then StartsWith(fmt, tail, Refuse)
         else Unfinished(fmt, tail) && tail == Pending()
    }

    lemma RunToTheEnd(whole: seq<Byte>, got: seq<Frame>, tail: seq<Byte>, copyLen: nat)
      requires Running(whole, got, tail, copyLen, 0)
      ensures Finished(whole, got, tail, Message)
    {}

    lemma RunFromTheStart(n: nat)
      requires Shape() && 0 < n <= MAX_LENGTH
      ensures var whole := Pending() + data[..n]; Running(whole, [], whole, 0, n) && Extends(posted, log + [])
    {
      assert data[0..0 + n] == data[..n] && log + [] == log;
    }

    /** One turn of the parsing loop. */
    method Turn(ghost rem: seq<Byte>, copyLen: nat, bytes: nat)
      returns (outcome: Outcome, used: nat, ghost f: Frame)
      requires Shape() && PostedFrozen()
      requires 0 < bytes && copyLen + bytes <= data.Length
      requires rem == Pending() + data[copyLen..copyLen + bytes]
      requires !StartsWith(fmt, rem, Negative)
      modifies this`bHeadParse, this`posted, this`log, this`recvMsgNode, recvHeadNode, recvHeadNode.data
      modifies if bHeadParse then {recvMsgNode, recvMsgNode.data} else {}
      ensures Shape() && PostedFrozen() && 0 < used <= bytes
      ensures Progress(rem, data[copyLen + used..copyLen + bytes], outcome, f)
      ensures Handed(old(posted), old(log), outcome, f)
      ensures forall o <- Used() :: o in old(Used()) || fresh(o)
    {
      hide Progress, Handed, PostedFrozen, StartsWith, Used;
      if !bHeadParse {
        outcome, used, f := HeadTurn(rem, copyLen, bytes);
      } else {
        outcome, used, f := BodyTurn(rem, copyLen, bytes);
      }
    }

    /** The same turn, with the account of the whole chunk brought up to date. */
    method AccountedTurn(ghost whole: seq<Byte>, ghost nodes: seq<MsgNode>, ghost frames: seq<Frame>,
                         ghost got: seq<Frame>, ghost tail: seq<Byte>, copyLen: nat, bytes: nat)
      returns (outcome: Outcome, used: nat, ghost got': seq<Frame>, ghost tail': seq<Byte>)
      requires PostedFrozen() && Extends(nodes, frames + got) && 0 < bytes
      requires Running(whole, got, tail, copyLen, bytes) && Parse(fmt, whole).stop != NegativeLength
      modifies this`bHeadParse, this`posted, this`log, this`recvMsgNode, recvHeadNode, recvHeadNode.data
      modifies if bHeadParse then {recvMsgNode, recvMsgNode.data} else {}
      ensures PostedFrozen() && Extends(nodes, frames + got') && 0 < used <= bytes
      ensures if outcome == Message
              then !bHeadParse && Running(whole, got', tail', copyLen + used, bytes - used)
              else Finished(whole, got', tail', outcome)
      ensures forall o <- Used() :: o in old(Used()) || fresh(o)
    {
      NoNegativeHead(whole, got, tail);
      hide Parse, EncodeAll, CheckHead, Encode, Unfinished, StartsWith, Legal, PostedFrozen, Account, Used;
      ghost var f;
      outcome, used, f := Turn(tail, copyLen, bytes);
      if outcome == Message {
        tail', got' := data[copyLen + used..copyLen + bytes], got + [f];
        assert frames + got + [f] == frames + got';
        AccountGrows(whole, got, tail, f, tail');
      } else {
        tail', got' := tail, got;
      }
    }

    /** The posted nodes extend these, and the log is this. */
    ghost predicate Extends(nodes: seq<MsgNode>, frames: seq<Frame>)
      reads this
    {
      nodes <= posted && log == frames
    }

    /** The frames found and the bytes not yet accounted for make up the whole. */
    ghost predicate Account(whole: seq<Byte>, got: seq<Frame>, tail: seq<Byte>) {
      whole == EncodeAll(fmt, got) + tail && forall f <- got :: Legal(fmt, f)
    }

    lemma NoNegativeHead(whole: seq<Byte>, got: seq<Frame>, rem: seq<Byte>)
      requires Account(whole, got, rem)
      requires Parse(fmt, whole).stop != NegativeLength
      ensures !StartsWith(fmt, rem, Negative)
    {
      if StartsWith(fmt, rem, Negative) {
        ParseTail(fmt, rem);
        ParseIsTheOnlyReading(fmt, got, rem);
      }
    }

    /** The parsing loop.  The bytes kept from before and the chunk together are the encodings of
        the frames posted now, and a tail without a frame: either what is kept next, or what follows
        from a refused header on. */
    method ReadChunk(n: nat) returns (outcome: Outcome, ghost got: seq<Frame>, ghost tail: seq<Byte>)
      requires Shape() && PostedFrozen() && 0 < n <= MAX_LENGTH
      requires Parse(fmt, Pending() + data[..n]).stop != NegativeLength
      modifies this`bHeadParse, this`posted, this`log, this`recvMsgNode, recvHeadNode, recvHeadNode.data
      modifies if bHeadParse then {recvMsgNode, recvMsgNode.data} else {}
      ensures PostedFrozen() && Extends(old(posted), old(log) + got)
      ensures Finished(old(Pending() + data[..n]), got, tail, outcome)
      ensures forall o <- Used() :: o in old(Used()) || fresh(o)
    {
      hide Running, Finished, Extends, Parse, PostedFrozen, Used;
      got, tail := [], Pending() + data[..n];
      ghost var whole := tail;
      RunFromTheStart(n);
      var copyLen, bytes := 0, n;
      outcome := Message;
      while bytes > 0 && outcome == Message
        invariant PostedFrozen() && Extends(old(posted), old(log) + got)
        invariant if outcome == Message then Running(whole, got, tail, copyLen, bytes)
                  else Finished(whole, got, tail, outcome)
        invariant copyLen + bytes == n && forall o <- Used() :: o in old(Used()) || fresh(o)
        invariant bHeadParse && outcome == Message ==> old(bHeadParse) && recvMsgNode == old(recvMsgNode)
        decreases bytes
      {
        var used;
        outcome, used, got, tail := AccountedTurn(whole, old(posted), old(log), got, tail, copyLen, bytes);
        copyLen, bytes := copyLen + used, bytes - used;
      }
      if outcome == Message {
        RunToTheEnd(whole, got, tail, copyLen);
      }
    }

    /** What the account of a chunk says about the whole stream. */
    lemma ChunkParsed(before: seq<Byte>, kept: seq<Byte>, chunk: seq<Byte>, got: seq<Frame>, tail: seq<Byte>)
      requires Parse(fmt, before).stop == NeedMore && Parse(fmt, before).rest == kept
      requires Account(kept + chunk, got, tail)
      ensures Unfinished(fmt, tail) ==>
                Parse(fmt, before + chunk) == Parsed(Parse(fmt, before).frames + got, tail, NeedMore)
      ensures StartsWith(fmt, tail, Refuse) ==>
                Parse(fmt, before + chunk) == Parsed(Parse(fmt, before).frames + got, tail, Refused)
      ensures Unfinished(fmt, tail) || StartsWith(fmt, tail, Refuse) ==> Parse(fmt, kept + chunk).frames == got
    {
      ParseTail(fmt, tail);
      if Parse(fmt, tail).frames == [] {
        ParseContinues(fmt, before, chunk, got, tail);
        ParseIsTheOnlyReading(fmt, got, tail);
      }
    }

    /** The read in progress completes with these bytes: nothing, on an error. */
    method CompleteRead(chunk: seq<Byte>)
      requires Valid() && readsArmed == 1 && |chunk| <= MAX_LENGTH
      modifies this`readsArmed, data
      ensures Valid() && readsArmed == 0 && data[..|chunk|] == chunk
      ensures Parse(fmt, received).stop == NeedMore
    {
      Memcpy(data, 0, chunk);
      readsArmed := 0;
    }

    /** The completion handler of async_read_some: `n` bytes lie in `data`.

        Whatever the chunk boundaries, the nodes posted so far are the frames of the stream received
        so far (`Valid`), and nodes posted earlier still hold their frames.  The handler ends with
        one read armed; or, on an error or a refused header, with the session out of the map and no
        read armed; or, for a completion of zero bytes, with neither. */
    method HandleRead(error: bool, n: nat)
      requires Valid() && readsArmed == 0 && Parse(fmt, received).stop == NeedMore
      requires n <= MAX_LENGTH
      requires !error ==> Parse(fmt, received + data[..n]).stop != NegativeLength
      modifies this, server`sessions, data, recvHeadNode, recvHeadNode.data
      modifies if bHeadParse then {recvMsgNode, recvMsgNode.data} else {}
      ensures Valid()
      ensures received == old(received) + if error then [] else old(data[..n])
      ensures log == Parse(fmt, received).frames
      ensures old(posted) <= posted && old(log) <= log
      ensures !error && n > 0 ==>
                log == old(log) + Parse(fmt, Parse(fmt, old(received)).rest + old(data[..n])).frames
      ensures readsArmed == 1 <==> !error && n > 0 && Parse(fmt, received).stop == NeedMore
      ensures server.sessions == if error || Parse(fmt, received).stop == Refused
                                 then old(server.sessions) - {uuid} else old(server.sessions)
      ensures closed == (old(closed) || error)
      ensures forall o <- Used() :: o in old(Used()) || fresh(o)
    {
      hide Parse, Used;
      if error {
        closed := true;
        server.ClearSession(uuid);
        return;
      }
      if n > 0 {
        TakeChunk(n);
      } else {
        assert received + data[..n] == received;
      }
    }

    /** What a read does to the stream, the messages, the read operation and the socket. */
    twostate predicate HasRead(error: bool, chunk: seq<Byte>)
      reads this
    {
      && received == old(received) + (if error then [] else chunk)
      && old(posted) <= posted && old(log) <= log == Parse(fmt, received).frames
      && |old(posted)| == |old(log)|
      && (readsArmed == 1 <==> !error && chunk != [] && Parse(fmt, received).stop == NeedMore)
      && closed == (old(closed) || error)
    }

    /** What it leaves of the map: an error and a refused header take the session out. */
    ghost function MapAfter(before: map<string, CSession>, error: bool): map<string, CSession>
      reads this
    {
      if error || Parse(fmt, received).stop == Refused then before - {uuid} else before
    }

    /** A whole read, from its completion on. */
    method OnRead(error: bool, chunk: seq<Byte>)
      requires Valid() && readsArmed == 1 && |chunk| <= MAX_LENGTH
      requires !error ==> Parse(fmt, received + chunk).stop != NegativeLength
      modifies this, server`sessions, Buffers()
      ensures Valid() && HasRead(error, chunk)
      ensures server.sessions == MapAfter(old(server.sessions), error)
      ensures forall o <- Used() :: o in old(Used()) || fresh(o)
    {
      assert |posted| == |log| && (bHeadParse ==> recvMsgNode != null);
      hide Parse, UpToDate, Used;
      CompleteRead(chunk);
      HandleRead(error, |chunk|);
    }

    /** The loop for a chunk that holds anything, and what follows it: a new read, or, behind a refused
        header, the session leaves the map. */
    method TakeChunk(n: nat)
      requires Valid() && readsArmed == 0 && Parse(fmt, received).stop == NeedMore
      requires 0 < n <= MAX_LENGTH && Parse(fmt, received + data[..n]).stop != NegativeLength
      modifies this, server`sessions, data, recvHeadNode, recvHeadNode.data
      modifies if bHeadParse then {recvMsgNode, recvMsgNode.data} else {}
      ensures Valid() && received == old(received) + old(data[..n]) && closed == old(closed)
      ensures old(posted) <= posted
      ensures log == old(log) + Parse(fmt, Parse(fmt, old(received)).rest + old(data[..n])).frames
      ensures readsArmed == 1 <==> Parse(fmt, received).stop == NeedMore
      ensures server.sessions == if Parse(fmt, received).stop == Refused then old(server.sessions) - {uuid}
                                 else old(server.sessions)
      ensures forall o <- Used() :: o in old(Used()) || fresh(o)
    {
      assert bHeadParse ==> recvMsgNode != null;
      hide Parse, UpToDate, Used;
      var outcome := ParseChunk(n);
      ReadOnOrLeave(outcome == HeadRefused);
    }

    method ReadOnOrLeave(refused: bool)
      requires UpToDate() && readsArmed == 0
      modifies this`readsArmed, data, server`sessions
      ensures UpToDate() && readsArmed == if refused then 0 else 1
      ensures server.sessions == if refused then old(server.sessions) - {uuid} else old(server.sessions)
    {
      hide UpToDate;
      if refused {
        server.ClearSession(uuid);
      } else {
        ArmRead();
      }
    }

    /** The loop, with what it means for the whole stream. */
    method ParseChunk(n: nat) returns (outcome: Outcome)
      requires UpToDate() && Parse(fmt, received).stop == NeedMore
      requires 0 < n <= MAX_LENGTH && Parse(fmt, received + data[..n]).stop != NegativeLength
      modifies this`bHeadParse, this`posted, this`log, this`received, this`recvMsgNode
      modifies recvHeadNode, recvHeadNode.data
      modifies if bHeadParse then {recvMsgNode, recvMsgNode.data} else {}
      ensures UpToDate() && received == old(received + data[..n]) && old(posted) <= posted
      ensures log == old(log) + Parse(fmt, Parse(fmt, old(received)).rest + old(data[..n])).frames
      ensures Parse(fmt, received).stop == if outcome == HeadRefused then Refused else NeedMore
      ensures forall o <- Used() :: o in old(Used()) || fresh(o)
    {
      hide Parse, Account, Unfinished, StartsWith, Used;
      ghost var before, kept, chunk := received, Pending(), data[..n];
      ParseResumes(fmt, before, chunk);
      ghost var got, tail;
      outcome, got, tail := ReadChunk(n);
      ChunkParsed(before, kept, chunk, got, tail);
      received := before + chunk;
    }
  }
}
