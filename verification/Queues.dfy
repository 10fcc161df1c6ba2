/** Message queues: what is drained and what is still queued is, in order, what was put in. */
module Queues {
  import opened Basics

  datatype QueueMode = All | OneAtATime

  /** How many messages one drain takes. */
  function Taken<T>(mode: QueueMode, queue: seq<T>): (n: nat)
    ensures n <= |queue| && (queue != [] ==> n > 0)
  {
    if mode.All? then |queue| else if queue == [] then 0 else 1
  }

  // ----- The agent's queue

  class PendingMessageQueue<T> {
    var messages: seq<T>
    var mode: QueueMode
    /** Everything handed to the loop, and everything queued and not cleared. */
    ghost var drained: seq<T>
    ghost var enqueued: seq<T>

    ghost predicate Valid()
      reads this
    {
      drained + messages == enqueued
    }

    constructor (m: QueueMode)
      ensures Valid() && mode == m && messages == [] && enqueued == []
    {
      messages, mode, drained, enqueued := [], m, [], [];
    }

    method Enqueue(message: T)
      requires Valid()
      modifies this
      ensures Valid() && messages == old(messages) + [message] && enqueued == old(enqueued) + [message]
      ensures drained == old(drained) && mode == old(mode)
    {
      messages := messages + [message];
      enqueued := enqueued + [message];
    }

    method HasItems() returns (r: bool)
      requires Valid()
      ensures r <==> drained != enqueued
    {
      assert messages == [] ==> drained + messages == drained;
      r := |messages| > 0;
    }

    /** Hands over the oldest message, or all of them. */
    method Drain() returns (r: seq<T>)
      requires Valid()
      modifies this
      ensures Valid() && r + messages == old(messages) && |r| == Taken(mode, old(messages))
      ensures mode.All? ==> messages == []
      ensures mode.OneAtATime? ==> |r| <= 1 && (r == [] ==> old(messages) == [])
      ensures drained == old(drained) + r && enqueued == old(enqueued) && mode == old(mode)
    {
      if mode.All? {
        r := messages;
        messages := [];
      } else if messages == [] {
        r := [];
      } else {
        r := [messages[0]];
        messages := messages[1..];
      }
      drained := drained + r;
    }

    method Clear()
      requires Valid()
      modifies this
      ensures Valid() && messages == [] && drained == old(drained) && enqueued == old(drained) && mode == old(mode)
    {
      messages, enqueued := [], drained;
    }
  }

  // ----- The harness's queue, whose drains can fail half way

  /** `inFlight` are the messages of drains whose queue_update hook has not answered, by drain. */
  datatype Queue<T> = Queue(queue: seq<T>, inFlight: map<nat, seq<T>>, drained: seq<T>, enqueued: seq<T>)

  datatype Event<T> = Enqueues(message: T) | Begins(drain: nat, mode: QueueMode) | Ends(drain: nat, ok: bool)

  predicate Enabled<T>(q: Queue<T>, e: Event<T>) {
    match e
    case Enqueues(_) => true
    case Begins(d, mode) => d !in q.inFlight
    case Ends(d, ok) => d in q.inFlight
  }

  function Step<T>(q: Queue<T>, e: Event<T>): Queue<T>
    requires Enabled(q, e)
  {
    match e
    case Enqueues(m) => q.(queue := q.queue + [m], enqueued := q.enqueued + [m])
    case Begins(d, mode) =>
      // An empty drain is over at once.
      var n := Taken(mode, q.queue);
      if n == 0 then q else q.(queue := q.queue[n..], inFlight := q.inFlight[d := q.queue[..n]])
    case Ends(d, ok) =>
      var taken := q.inFlight[d];
      if ok then q.(inFlight := q.inFlight - {d}, drained := q.drained + taken)
      else q.(inFlight := q.inFlight - {d}, queue := taken + q.queue)
  }

  /** A drain takes everything, or at most the oldest message, and nothing only from an empty queue. */
  lemma {:induction false} BeginTakes<T>(q: Queue<T>, d: nat, mode: QueueMode)
    requires d !in q.inFlight
    ensures var r := Step(q, Begins(d, mode)); var x := if d in r.inFlight then r.inFlight[d] else [];
      && x + r.queue == q.queue && (x == [] <==> q.queue == [])
      && (mode.All? ==> r.queue == []) && (mode.OneAtATime? ==> |x| <= 1)
  {
    assert [] + q.queue == q.queue;
  }

  /** Drain `d` is the only one under way. */
  predicate Flying<T(==)>(q: Queue<T>, d: nat) {
    q.inFlight.Keys == {d} && q.drained + q.inFlight[d] + q.queue == q.enqueued
  }

  ghost predicate Conserved<T>(q: Queue<T>) {
    (q.inFlight == map[] && q.drained + q.queue == q.enqueued) || exists d :: Flying(q, d)
  }

  lemma {:induction false} BeginConserved<T>(q: Queue<T>, d: nat, mode: QueueMode)
    requires q.inFlight == map[] && q.drained + q.queue == q.enqueued
    ensures Conserved(Step(q, Begins(d, mode)))
  {
    var n := Taken(mode, q.queue);
    var r := Step(q, Begins(d, mode));
    assert q.queue == q.queue[..n] + q.queue[n..];
    Reassociate(q.drained, q.queue[..n], q.queue[n..]);
    if n > 0 { assert Flying(r, d); }
  }

  /** One step, when drains do not overlap. */
  lemma {:induction false} StepConserved<T>(q: Queue<T>, e: Event<T>)
    requires Conserved(q) && Enabled(q, e) && (e.Begins? ==> q.inFlight == map[])
    ensures Conserved(Step(q, e))
  {
    hide Taken;
    match e {
      case Enqueues(m) =>
        if q.inFlight == map[] {
          Reassociate(q.drained, q.queue, [m]);
        } else {
          var d :| Flying(q, d);
          Reassociate(q.drained + q.inFlight[d], q.queue, [m]);
          assert Flying(Step(q, e), d);
        }
      case Begins(d, mode) => BeginConserved(q, d, mode);
      case Ends(d, ok) =>
        assert Flying(q, d);
        Reassociate(q.drained, q.inFlight[d], q.queue);
        assert (q.inFlight - {d}).Keys == {};
    }
  }

  ghost predicate IsRun<T>(qs: seq<Queue<T>>, es: seq<Event<T>>) {
    && |qs| == |es| + 1
    && forall i :: 0 <= i < |es| ==> Enabled(qs[i], es[i]) && qs[i + 1] == Step(qs[i], es[i])
  }

  /** For every interleaving of new messages with drains in either mode, one drain at a time, finished
      or rolled back: drained, in flight and still queued are together all that was queued, in order. */
  lemma {:induction false} RunConserved<T>(qs: seq<Queue<T>>, es: seq<Event<T>>)
    requires IsRun(qs, es) && qs[0] == Queue([], map[], [], [])
    requires forall i :: 0 <= i < |es| && es[i].Begins? ==> qs[i].inFlight == map[]
    ensures Conserved(qs[|es|])
    ensures qs[|es|].inFlight == map[] ==> qs[|es|].drained + qs[|es|].queue == qs[|es|].enqueued
    decreases |es|
  {
    hide Step;
    if es != [] {
      var k := |es| - 1;
      RunConserved(qs[..k + 1], es[..k]);
      assert Enabled(qs[k], es[k]) && qs[k + 1] == Step(qs[k], es[k]);
      StepConserved(qs[k], es[k]);
    }
  }

  /** Two overlapping drains that took `x` and then `y`, both rolled back: in reverse order they restore the
      queue, in the order they began they do if and only if the two are interchangeable. */
  lemma {:induction false} RollbackExact<T>(q: Queue<T>, d: nat, e: nat)
    requires d != e && d in q.inFlight && e in q.inFlight
    ensures var x, y := q.inFlight[d], q.inFlight[e];
      && Step(Step(q, Ends(e, false)), Ends(d, false)).queue == x + y + q.queue
      && (Step(Step(q, Ends(d, false)), Ends(e, false)).queue == x + y + q.queue <==> x + y == y + x)
  {
    var x, y := q.inFlight[d], q.inFlight[e];
    Reassociate(x, y, q.queue);
    Reassociate(y, x, q.queue);
    assert (x + y + q.queue)[..|x + y|] == x + y && (y + x + q.queue)[..|x + y|] == y + x;
  }

  /** A drain with its hook: messages may arrive while the hook is awaited, and when it fails the
      messages taken go back to the front. */
  class HarnessQueue<T> {
    var queue: seq<T>
    ghost var drained: seq<T>
    ghost var enqueued: seq<T>

    ghost predicate Valid()
      reads this
    {
      drained + queue == enqueued
    }

    constructor ()
      ensures Valid() && queue == [] && enqueued == []
    {
      queue, drained, enqueued := [], [], [];
    }

    method DrainQueuedMessages(mode: QueueMode, arrivals: seq<T>, fails: bool) returns (ok: bool, messages: seq<T>)
      requires Valid()
      modifies this
      ensures Valid() && ok == !(fails && old(queue) != [])
      ensures drained == old(drained) + messages && messages == if ok then old(queue)[..Taken(mode, old(queue))] else []
      ensures ok ==> messages <= old(queue) && (mode.All? ==> messages == old(queue))
      ensures ok && mode.OneAtATime? ==> |messages| <= 1 && (messages == [] ==> old(queue) == [])
      ensures enqueued == old(enqueued) + (if old(queue) == [] then [] else arrivals)
    {
      var n := Taken(mode, queue);
      messages := queue[..n];
      queue := queue[n..];
      if messages == [] { return true, messages; }
      queue, enqueued := queue + arrivals, enqueued + arrivals;
      if fails {
        queue := messages + queue;
        return false, [];
      }
      drained := drained + messages;
      return true, messages;
    }
  }
}
