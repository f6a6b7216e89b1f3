/** What the logic queue means: the functions that both the code (`LogicSystems`) and the steps of the
    interleaved server (`Servers`) are built from.  `S` names the sessions: an object in the code, an
    index in the server. */
module LogicQueues {
  import opened Codec

  /** What a LogicNode stands for: a session and a complete message of it. */
  datatype Task<S> = Task(sid: S, frame: Frame)

  /** The queue and its history: what was pushed, what was popped, and the callbacks started. */
  datatype Logic<S> = Logic(queue: seq<Task<S>>, posted: seq<Task<S>>, taken: seq<Task<S>>, calls: seq<Task<S>>)

  /** PostMsg2Que pushes ... */
  function Pushed<S>(q: Logic<S>, n: Task<S>): Logic<S> {
    q.(queue := q.queue + [n], posted := q.posted + [n])
  }

  /** ... and notifies if that made the size 1. */
  predicate PushNotifies<S>(q: Logic<S>, n: Task<S>) {
    |Pushed(q, n).queue| == 1
  }

  /** The messages of one session, pushed one after the other. */
  function PushedAll<S>(q: Logic<S>, s: S, frames: seq<Frame>): Logic<S> {
    if frames == [] then q
    else Pushed(PushedAll(q, s, frames[..|frames| - 1]), Task(s, frames[|frames| - 1]))
  }

  lemma PushedNext<S>(q: Logic<S>, s: S, frames: seq<Frame>, i: nat, j: nat)
    requires i <= j < |frames|
    ensures PushedAll(q, s, frames[i..j + 1]) == Pushed(PushedAll(q, s, frames[i..j]), Task(s, frames[j]))
  {
    var more := frames[i..j + 1];
    assert more[..|more| - 1] == frames[i..j];
  }

  /** The callback of the front message is started. */
  function FrontCalled<S>(q: Logic<S>): Logic<S>
    requires q.queue != []
  {
    q.(calls := q.calls + [q.queue[0]])
  }

  function FrontPopped<S>(q: Logic<S>): Logic<S>
    requires q.queue != []
  {
    q.(queue := q.queue[1..], taken := q.taken + [q.queue[0]])
  }

  /** What the worker does to the front message: called back if somebody is registered, and popped. */
  function Handled<S>(ids: set<Short>, q: Logic<S>): Logic<S>
    requires q.queue != []
  {
    FrontPopped(if q.queue[0].frame.id in ids then FrontCalled(q) else q)
  }

  /** The loop behind a seen stop. */
  function Drained<S>(ids: set<Short>, q: Logic<S>): Logic<S>
    decreases |q.queue|
  {
    if q.queue == [] then q else Drained(ids, Handled(ids, q))
  }

  /** The messages somebody is registered for. */
  function Registered<S>(ids: set<Short>, tasks: seq<Task<S>>): seq<Task<S>> {
    if tasks == [] then []
    else
      var n := tasks[|tasks| - 1];
      Registered(ids, tasks[..|tasks| - 1]) + if n.frame.id in ids then [n] else []
  }

  lemma RegisteredOne<S>(ids: set<Short>, tasks: seq<Task<S>>, n: Task<S>)
    ensures Registered(ids, tasks + [n]) == Registered(ids, tasks) + if n.frame.id in ids then [n] else []
  {
    assert (tasks + [n])[..|tasks|] == tasks;
  }

  lemma {:induction false} RegisteredAppend<S>(ids: set<Short>, a: seq<Task<S>>, b: seq<Task<S>>)
    ensures Registered(ids, a + b) == Registered(ids, a) + Registered(ids, b)
    decreases |b|
  {
    if b == [] {
      assert a + b == a;
    } else {
      var m := |b| - 1;
      RegisteredAppend(ids, a, b[..m]);
      assert (a + b)[..|a| + m] == a + b[..m];
    }
  }

  lemma {:induction false} RegisteredOccurrences<S>(ids: set<Short>, tasks: seq<Task<S>>, n: Task<S>)
    ensures multiset(Registered(ids, tasks))[n] == if n.frame.id in ids then multiset(tasks)[n] else 0
  {
    if tasks != [] {
      var m := |tasks| - 1;
      RegisteredOccurrences(ids, tasks[..m], n);
      assert tasks == tasks[..m] + [tasks[m]];
    }
  }

  /** Draining pops everything that was queued, in order, and calls back exactly the registered
      messages among it. */
  lemma {:induction false} DrainedIsAll<S>(ids: set<Short>, q: Logic<S>)
    ensures Drained(ids, q) == Logic([], q.posted, q.taken + q.queue, q.calls + Registered(ids, q.queue))
    decreases |q.queue|
  {
    if q.queue == [] {
      assert q.taken + [] == q.taken && q.calls + [] == q.calls;
    } else {
      var front, others := [q.queue[0]], q.queue[1..];
      DrainedIsAll(ids, Handled(ids, q));
      assert q.queue == front + others;
      RegisteredAppend(ids, front, others);
      RegisteredOne(ids, [], q.queue[0]);
      assert [] + front == front && q.calls + [] == q.calls;
      Associative(q.taken, front, others);
      Associative(q.calls, Registered(ids, front), Registered(ids, others));
    }
  }
}
