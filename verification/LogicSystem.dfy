/** The logic queue as the code runs it: `PostMsg2Que` and the parts of `DealMsg` that hold the mutex,
    proved against the functions of `LogicQueues`.  `Servers` interleaves the same functions with the
    other threads, and `WorkerTurns` shows that there they happen undisturbed. */
module LogicSystems {
  import opened Codec
  import opened LogicQueues
  import opened MsgNodes
  import opened Sessions

  datatype LogicNode = LogicNode(session: CSession, recvnode: MsgNode)

  /** A callback invocation: the session, the id, and the body as a string made from the node. */
  datatype Call = Call(session: CSession, id: Short, body: seq<Byte>)

  class LogicSystem {
    const registered: set<Short>
    var msgQue: seq<LogicNode>
    var bStop: bool
    /** The callbacks invoked, in order. */
    var calls: seq<Call>
    ghost var q: Logic<CSession>

    /** The node's memory holds the whole message. */
    ghost static predicate Carries(n: LogicNode, t: Task<CSession>)
      reads n.recvnode, n.recvnode.data
    {
      n.session == t.sid && CSession.Holds(n.recvnode, t.frame)
    }

    /** The callback that gets the whole message. */
    static function WholeCall(t: Task<CSession>): Call {
      Call(t.sid, t.frame.id, t.frame.body)
    }

    /** The nodes queued carry the messages posted and not yet popped, and the callbacks invoked got
        the registered ones among those popped, whole and in order. */
    ghost predicate Valid()
      reads this, set n | n in msgQue :: n.recvnode, set n | n in msgQue :: n.recvnode.data
    {
      && |msgQue| == |q.queue|
      && (forall i | 0 <= i < |msgQue| :: Carries(msgQue[i], q.queue[i]))
      && q.posted == q.taken + q.queue
      && q.calls == Registered(registered, q.taken)
      && |calls| == |q.calls|
      && (forall i | 0 <= i < |calls| :: calls[i] == WholeCall(q.calls[i]))
    }

    constructor (registered: set<Short>)
      ensures Valid() && q == Logic([], [], [], []) && !bStop && this.registered == registered
    {
      this.registered, this.msgQue, this.bStop, this.calls := registered, [], false, [];
      this.q := Logic([], [], [], []);
    }

    /** The critical section of PostMsg2Que, and whether a notify_one follows it. */
    method PostMsg2Que(msg: LogicNode, ghost f: Frame) returns (notify: bool)
      requires Valid() && CSession.Holds(msg.recvnode, f)
      modifies this`msgQue, this`q
      ensures Valid() && msgQue == old(msgQue) + [msg]
      ensures q == Pushed(old(q), Task(msg.session, f))
      ensures notify <==> PushNotifies(old(q), Task(msg.session, f))
    {
      assert q.taken + (q.queue + [Task(msg.session, f)]) == q.posted + [Task(msg.session, f)];
      q := Pushed(q, Task(msg.session, f));
      msgQue := msgQue + [msg];
      notify := |msgQue| == 1;
    }

    /** The front message is looked up, called back if its id is registered, and popped. */
    method HandleFront()
      requires Valid() && msgQue != []
      modifies this`msgQue, this`calls, this`q
      ensures Valid() && msgQue == old(msgQue)[1..]
      ensures q == Handled(registered, old(q))
      ensures calls == old(calls) + if old(q.queue[0]).frame.id in registered then [WholeCall(old(q.queue[0]))] else []
    {
      var node := msgQue[0].recvnode;
      assert Carries(msgQue[0], q.queue[0]);
      RegisteredOne(registered, q.taken, q.queue[0]);
      assert q.taken + [q.queue[0]] + q.queue[1..] == q.posted;
      q := Handled(registered, q);
      if node.id !in registered {
        msgQue := msgQue[1..];
        return;
      }
      calls := calls + [Call(msgQue[0].session, node.id, node.data[..node.curLen])];
      msgQue := msgQue[1..];
    }

    /** The loop behind a seen stop: the whole queue is worked off. */
    method Drain()
      requires Valid()
      modifies this`msgQue, this`calls, this`q
      ensures Valid() && msgQue == [] && q == Drained(registered, old(q))
    {
      while msgQue != []
        invariant Valid()
        invariant Drained(registered, q) == Drained(registered, old(q))
        decreases |msgQue|
      {
        HandleFront();
      }
    }

    /** One turn of DealMsg behind the wait: with stop seen, the whole queue is worked off and the
        worker ends; otherwise one message is. */
    method DealTurn() returns (ended: bool)
      requires Valid() && (msgQue != [] || bStop)
      modifies this`msgQue, this`calls, this`q
      ensures Valid() && ended == bStop
      ensures q == if bStop then Drained(registered, old(q)) else Handled(registered, old(q))
    {
      if bStop {
        Drain();
        return true;
      }
      HandleFront();
      return false;
    }

    /** Every callback gets a whole message: the i-th one is for the i-th registered message popped,
        with its session, its id and its body, although only nodes were queued. */
    lemma CallsCarryWholeFrames()
      requires Valid()
      ensures |calls| == |Registered(registered, q.taken)|
      ensures forall i | 0 <= i < |calls| :: calls[i] == WholeCall(Registered(registered, q.taken)[i])
      ensures msgQue == [] ==> Registered(registered, q.taken) == Registered(registered, q.posted)
    {
      assert q.taken + [] == q.taken;
    }

    /** No two of these sessions share memory. */
    ghost static predicate Apart(all: set<CSession>)
      reads all
    {
      forall s, t | s in all && t in all && s != t :: s.Used() !! t.Used()
    }

    /** Every queued node is one that its session, among these, has posted. */
    ghost predicate Known(all: set<CSession>)
      reads this, all
    {
      forall m <- msgQue :: m.session in all && m.recvnode in m.session.posted
    }

    /** All of this, and each session is consistent. */
    ghost predicate Serves(all: set<CSession>)
      reads *
    {
      Valid() && Apart(all) && Known(all) && forall s <- all :: s.Valid()
    }

    /** What another session reads or writes is none of the buffers of this one ... */
    ghost static predicate OtherMemory(t: CSession, buffers: set<object>)
      reads t
    {
      && t !in buffers && t.data !in buffers && t.recvHeadNode !in buffers && t.recvHeadNode.data !in buffers
      && (t.recvMsgNode != null ==> t.recvMsgNode !in buffers && t.recvMsgNode.data !in buffers)
      && (forall p <- t.posted :: p !in buffers && p.data !in buffers)
    }

    lemma OthersAreOutOfReach(session: CSession, all: set<CSession>)
      requires Apart(all) && session in all
      ensures forall t <- all | t != session :: OtherMemory(t, session.Buffers())
      ensures session !in session.Buffers()
    {
      forall t <- all | t != session ensures OtherMemory(t, session.Buffers()) {
        assert session.Buffers() <= session.Used();
        assert t.Used() !! session.Used();
      }
    }

    /** ... nor is any queued node: the session's own nodes are out of its reach because it has posted
        them, the others because their sessions use other memory. */
    ghost predicate OutOfReach(buffers: set<object>)
      reads this
    {
      this !in buffers && forall m <- msgQue :: m.recvnode !in buffers && m.recvnode.data !in buffers
    }

    lemma QueuedIsOutOfReach(session: CSession, all: set<CSession>)
      requires Apart(all) && Known(all) && session in all && session.Valid()
      ensures OutOfReach(session.Buffers())
    {
      OthersAreOutOfReach(session, all);
    }

    /** One read of one of its sessions, from the completion on, with the posts HandleRead makes: the
        messages the chunk completes are pushed, in order; what was queued before still holds its
        messages; and the same can be said of the next read, of this session or of another. */
    method Receive(session: CSession, error: bool, chunk: seq<Byte>, ghost all: set<CSession>)
      requires Serves(all) && session in all && session.Valid()
      requires session.readsArmed == 1 && |chunk| <= MAX_LENGTH
      requires !error ==> Parse(session.fmt, session.received + chunk).stop != NegativeLength
      modifies this`msgQue, this`q
      modifies session, session.server`sessions, session.Buffers()
      ensures Serves(all) && session.HasRead(error, chunk)
      ensures session.server.sessions == session.MapAfter(old(session.server.sessions), error)
      ensures q == PushedAll(old(q), session, session.log[|old(session.log)|..])
    {
      hide Serves, CSession.Buffers;
      var start := |session.posted|;
      Read(session, error, chunk, all);
      PostFrom(session, start, all);
    }

    /** Reading keeps all that. */
    method Read(session: CSession, error: bool, chunk: seq<Byte>, ghost all: set<CSession>)
      requires Serves(all) && session in all && session.Valid()
      requires session.readsArmed == 1 && |chunk| <= MAX_LENGTH
      requires !error ==> Parse(session.fmt, session.received + chunk).stop != NegativeLength
      modifies session, session.server`sessions, session.Buffers()
      ensures Serves(all) && session.HasRead(error, chunk) && q == old(q)
      ensures session.server.sessions == session.MapAfter(old(session.server.sessions), error)
      ensures old(session.posted) <= session.posted && |session.posted| == |session.log|
    {
      hide CSession.With, CSession.Buffers, CSession.Valid, CSession.HasRead, CSession.MapAfter, Parse,
           OtherMemory, OutOfReach, Valid, Apart, Known;
      QueuedIsOutOfReach(session, all);
      OthersAreOutOfReach(session, all);
      ghost var before := Memory(all);
      ghost var posts := Posts(all);
      ReadAlone(session, error, chunk, all);
      StillKnown(all, posts);
      forall t <- all | t != session ensures session.Used() !! before[t] {
        assert before[session] !! before[t];
      }
      StillApart(session, all, before);
    }

    /** A read whose buffers are no memory of the queued nodes or of other sessions leaves both alone. */
    method ReadAlone(session: CSession, error: bool, chunk: seq<Byte>, ghost all: set<CSession>)
      requires Valid() && OutOfReach(session.Buffers()) && session in all && session.Valid()
      requires forall t <- all | t != session :: t.Valid() && OtherMemory(t, session.Buffers())
      requires session.readsArmed == 1 && |chunk| <= MAX_LENGTH
      requires !error ==> Parse(session.fmt, session.received + chunk).stop != NegativeLength
      modifies session, session.server`sessions, session.Buffers()
      ensures Valid() && session.HasRead(error, chunk)
      ensures session.server.sessions == session.MapAfter(old(session.server.sessions), error)
      ensures forall t <- all :: t.Valid()
      ensures forall t <- all | t != session :: t.recvMsgNode == old(t.recvMsgNode) && t.posted == old(t.posted)
      ensures old(session.posted) <= session.posted && |session.posted| == |session.log|
      ensures msgQue == old(msgQue) && q == old(q)
      ensures forall o <- session.Used() :: o in old(session.Used()) || fresh(o)
    {
      hide CSession.Used, CSession.Buffers, Parse;
      session.OnRead(error, chunk);
      assert session.UpToDate();
    }

    /** An accepted session is one of them as well, and so is the one that waits for the next accept. */
    method Accept(server: CServer, error: bool, uuid: string, next: string, ghost all: set<CSession>)
      requires Serves(all) && server.Listening(uuid) && server.accepting in all
      modifies server, server.accepting`readsArmed, server.accepting.data
      ensures server.accepting != null && fresh(server.accepting) && server.Listening(next)
      ensures Serves(all + {server.accepting}) && q == old(q)
      ensures old(server.accepting).readsArmed == if error then 0 else 1
      ensures server.sessions == if error || uuid in old(server.sessions) then old(server.sessions)
                                 else old(server.sessions)[uuid := old(server.accepting)]
    {
      hide CSession.With, CSession.Buffers, CSession.Valid, OtherMemory, OutOfReach, Valid, Apart, Known;
      ghost var session := server.accepting;
      QueuedIsOutOfReach(session, all);
      OthersAreOutOfReach(session, all);
      ghost var before := Memory(all);
      ghost var posts := Posts(all);
      ghost var touched := session.Buffers() + {server};
      ServersAreOutOfReach(session, server, all);
      AcceptAlone(server, error, uuid, next, all, touched);
      StillKnown(all, posts);
      Joined(server.accepting, all, before);
    }

    /** A server is no memory of a session or of the queue either. */
    lemma ServersAreOutOfReach(session: CSession, server: CServer, all: set<CSession>)
      requires OutOfReach(session.Buffers()) && forall t <- all | t != session :: OtherMemory(t, session.Buffers())
      ensures var touched := session.Buffers() + {server};
              && OutOfReach(touched) && session !in touched && session.data in touched
              && forall t <- all | t != session :: OtherMemory(t, touched)
    {}

    method AcceptAlone(server: CServer, error: bool, uuid: string, next: string,
                       ghost all: set<CSession>, ghost touched: set<object>)
      requires Valid() && OutOfReach(touched) && server.Listening(uuid) && server.accepting in all
      requires server in touched && server.accepting.data in touched && server.accepting !in touched
      requires forall t <- all | t != server.accepting :: t.Valid() && OtherMemory(t, touched)
      modifies server, server.accepting`readsArmed, server.accepting.data
      ensures Valid() && server.Listening(next) && fresh(server.accepting) && fresh(server.accepting.Used())
      ensures forall t <- all :: t.Valid() && t.recvMsgNode == old(t.recvMsgNode) && t.posted == old(t.posted)
      ensures msgQue == old(msgQue) && q == old(q)
      ensures old(server.accepting).readsArmed == if error then 0 else 1
      ensures server.sessions == if error || uuid in old(server.sessions) then old(server.sessions)
                                 else old(server.sessions)[uuid := old(server.accepting)]
    {
      hide CSession.Used, CSession.UpToDate;
      server.HandleAccept(error, uuid, next);
    }

    /** A session with memory of its own joins. */
    lemma Joined(session: CSession, all: set<CSession>, before: map<CSession, set<object>>)
      requires Known(all) && before.Keys == all && session !in all
      requires forall s, t | s in all && t in all && s != t :: before[s] !! before[t]
      requires forall t <- all :: t.Used() == before[t] && session.Used() !! before[t]
      ensures Apart(all + {session}) && Known(all + {session})
    {
      hide CSession.Used;
    }

    /** The memory of each session, as it is now. */
    lemma Memory(all: set<CSession>) returns (before: map<CSession, set<object>>)
      requires Apart(all)
      ensures before.Keys == all && forall t <- all :: before[t] == t.Used()
      ensures forall s, t | s in all && t in all && s != t :: before[s] !! before[t]
      ensures forall t, o | t in all && o in before[t] :: allocated(o)
    {
      before := map t | t in all :: t.Used();
      forall t <- all ensures forall o <- before[t] :: allocated(o) {
        UsedIsThere(t);
      }
    }

    /** What each session has posted, as it is now. */
    lemma Posts(all: set<CSession>) returns (before: map<CSession, seq<MsgNode>>)
      requires Known(all)
      ensures before.Keys == all && forall t <- all :: before[t] == t.posted
      ensures forall m <- msgQue :: m.session in all && m.recvnode in before[m.session]
    {
      before := map t | t in all :: t.posted;
    }

    lemma StillKnown(all: set<CSession>, before: map<CSession, seq<MsgNode>>)
      requires before.Keys == all && forall t <- all :: before[t] <= t.posted
      requires forall m <- msgQue :: m.session in all && m.recvnode in before[m.session]
      ensures Known(all)
    {}

    lemma UsedIsThere(t: CSession)
      ensures forall o <- t.Used() :: allocated(o)
    {}

    /** Sessions that were apart are so while only one of them takes memory that the others lack. */
    lemma StillApart(session: CSession, all: set<CSession>, before: map<CSession, set<object>>)
      requires before.Keys == all && session in all
      requires forall s, t | s in all && t in all && s != t :: before[s] !! before[t]
      requires forall t <- all | t != session :: t.Used() == before[t] && session.Used() !! before[t]
      ensures Apart(all)
    {
      hide CSession.Used;
    }

    /** The posts of one call of HandleRead. */
    method PostFrom(session: CSession, start: nat, ghost all: set<CSession>)
      requires Serves(all) && session in all && start <= |session.posted|
      modifies this`msgQue, this`q
      ensures Serves(all) && start <= |session.log|
      ensures q == PushedAll(old(q), session, session.log[start..])
    {
      assert session.Valid();
      hide CSession.Valid, CSession.Used, Apart, Valid, Known;
      PostEach(session, start, all);
    }

    method PostEach(session: CSession, start: nat, ghost all: set<CSession>)
      requires Valid() && Known(all) && session in all && session.PostedFrozen() && start <= |session.posted|
      modifies this`msgQue, this`q
      ensures Valid() && Known(all) && start <= |session.log|
      ensures q == PushedAll(old(q), session, session.log[start..])
    {
      hide Valid;
      var i := start;
      while i < |session.posted|
        invariant start <= i <= |session.posted| && Valid() && Known(all)
        invariant q == PushedAll(old(q), session, session.log[start..i])
      {
        PushedNext(old(q), session, session.log, start, i);
        var _ := PostMsg2Que(LogicNode(session, session.posted[i]), session.log[i]);
        i := i + 1;
      }
      assert session.log[start..i] == session.log[start..];
    }
  }
}
