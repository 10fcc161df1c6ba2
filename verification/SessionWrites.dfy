/** Session writes deferred during a run reach the session once each, in order. */
module SessionWrites {
  /** `appended` are the deferred writes the session has taken; `flushers` hold the write they are
      waiting for. */
  datatype Writer<T> = Writer(pending: seq<T>, appended: seq<T>, deferred: seq<T>, flushers: map<nat, T>)

  /** A flusher takes the head, waits for the session, and removes the head if the append worked. */
  datatype Event<T> = Defers(write: T) | Takes(flusher: nat) | Answers(flusher: nat, ok: bool)

  predicate Enabled<T>(w: Writer<T>, e: Event<T>) {
    match e
    case Defers(_) => true
    case Takes(f) => f !in w.flushers && w.pending != []
    case Answers(f, ok) => f in w.flushers
  }

  function Rest<T>(s: seq<T>): seq<T> { if s == [] then [] else s[1..] }

  function Step<T>(w: Writer<T>, e: Event<T>): Writer<T>
    requires Enabled(w, e)
  {
    match e
    case Defers(x) => w.(pending := w.pending + [x], deferred := w.deferred + [x])
    case Takes(f) => w.(flushers := w.flushers[f := w.pending[0]])
    case Answers(f, ok) =>
      if ok then w.(appended := w.appended + [w.flushers[f]], pending := Rest(w.pending), flushers := w.flushers - {f})
      else w.(flushers := w.flushers - {f})
  }

  /** Nothing lost, nothing twice, in order; the flusher under way waits for the head. */
  ghost predicate Ordered<T>(w: Writer<T>) {
    && w.appended + w.pending == w.deferred
    && (forall f, g :: f in w.flushers && g in w.flushers ==> f == g)
    && (forall f :: f in w.flushers ==> w.pending != [] && w.flushers[f] == w.pending[0])
  }

  lemma {:induction false} StepOrdered<T>(w: Writer<T>, e: Event<T>)
    requires Ordered(w) && Enabled(w, e) && (e.Takes? ==> w.flushers == map[])
    ensures Ordered(Step(w, e))
  {
    match e {
      case Defers(x) => assert w.appended + (w.pending + [x]) == w.appended + w.pending + [x];
      case Takes(f) =>
      case Answers(f, ok) =>
        assert w.pending == [w.pending[0]] + w.pending[1..];
        assert w.appended + [w.pending[0]] + w.pending[1..] == w.appended + ([w.pending[0]] + w.pending[1..]);
    }
  }

  ghost predicate IsRun<T>(ws: seq<Writer<T>>, es: seq<Event<T>>) {
    && |ws| == |es| + 1
    && forall i :: 0 <= i < |es| ==> Enabled(ws[i], es[i]) && ws[i + 1] == Step(ws[i], es[i])
  }

  /** For every interleaving of new writes with a flush, and every failed append, given one flusher at
      a time: what the session has taken and what is pending is all that was deferred, in order. */
  lemma {:induction false} RunOrdered<T>(ws: seq<Writer<T>>, es: seq<Event<T>>)
    requires IsRun(ws, es) && ws[0] == Writer([], [], [], map[])
    requires forall i :: 0 <= i < |es| && es[i].Takes? ==> ws[i].flushers == map[]
    ensures forall i :: 0 <= i < |ws| ==> Ordered(ws[i])
    decreases |es|
  {
    hide Step, Ordered;
    if es == [] {
      StartOrdered<T>();
    } else {
      var k := |es| - 1;
      RunOrdered(ws[..k + 1], es[..k]);
      assert ws[..k + 1][k] == ws[k];
      assert Enabled(ws[k], es[k]) && ws[k + 1] == Step(ws[k], es[k]);
      StepOrdered(ws[k], es[k]);
      forall i | 0 <= i < |ws| ensures Ordered(ws[i]) {
        if i <= k { assert ws[i] == ws[..k + 1][i]; }
      }
    }
  }

  lemma {:induction false} StartOrdered<T>()
    ensures Ordered<T>(Writer([], [], [], map[]))
  {
  }

  /** An append that worked keeps the equation if and only if its write is still the head. */
  lemma {:induction false} AnswerExact<T>(w: Writer<T>, f: nat)
    requires f in w.flushers && w.appended + w.pending == w.deferred
    ensures var r := Step(w, Answers(f, true));
      r.appended + r.pending == r.deferred <==> w.pending != [] && w.pending[0] == w.flushers[f]
  {
    var r := Step(w, Answers(f, true));
    if w.pending == [] {
      assert |r.appended + r.pending| != |w.deferred|;
    } else {
      assert (r.appended + r.pending)[|w.appended|] == w.flushers[f];
      assert w.deferred[|w.appended|] == w.pending[0];
      assert w.pending == [w.pending[0]] + w.pending[1..];
      assert w.appended + [w.pending[0]] + w.pending[1..] == w.appended + ([w.pending[0]] + w.pending[1..]);
    }
  }

  /** With two flushers at once the head is written twice and the next write is lost. */
  lemma {:induction false} TwoFlushersLose<T>(a: T, b: T, rest: seq<T>)
    ensures var w := Writer([a, b] + rest, [], [a, b] + rest, map[]);
      var r := Step(Step(Step(Step(w, Takes(0)), Takes(1)), Answers(0, true)), Answers(1, true));
      r.appended == [a, a] && r.pending == rest
  {
    var w := Writer([a, b] + rest, [], [a, b] + rest, map[]);
    var w2 := Step(Step(w, Takes(0)), Takes(1));
    assert w2.flushers[0] == a && w2.flushers[1] == a;
    var w3 := Step(w2, Answers(0, true));
    assert w3.pending == [b] + rest && w3.flushers[1] == a && w3.appended == [a];
  }

  /** What happens while one append is awaited: writes that arrive, and whether it fails. Later appends
      are quiet. */
  datatype Await<T> = Await(arrivals: seq<T>, fails: bool)

  class Harness<T> {
    var pendingSessionWrites: seq<T>
    /** The session's log of deferred writes. */
    var session: seq<T>
    ghost var deferred: seq<T>

    ghost predicate Valid()
      reads this
    {
      session + pendingSessionWrites == deferred
    }

    constructor ()
      ensures Valid() && session == [] && deferred == []
    {
      pendingSessionWrites, session, deferred := [], [], [];
    }

    method Defer(write: T)
      requires Valid()
      modifies this
      ensures Valid() && session == old(session) && deferred == old(deferred) + [write]
    {
      pendingSessionWrites := pendingSessionWrites + [write];
      deferred := deferred + [write];
    }

    /** Appends the head until nothing is pending. A failed append leaves its write pending. */
    method Flush(awaits: seq<Await<T>>) returns (failed: bool)
      requires Valid()
      modifies this
      ensures Valid() && old(session) <= session && old(deferred) <= deferred
      ensures failed <==> pendingSessionWrites != []
      ensures failed ==> |session| - |old(session)| < |awaits| && awaits[|session| - |old(session)|].fails
    {
      var k := 0;
      while |pendingSessionWrites| > 0
        invariant 0 <= k == |session| - |old(session)| && Valid()
        invariant old(session) <= session && old(deferred) <= deferred
        decreases if k < |awaits| then |awaits| - k else 0, |pendingSessionWrites|
      {
        var write := pendingSessionWrites[0];
        if k < |awaits| {
          pendingSessionWrites := pendingSessionWrites + awaits[k].arrivals;
          deferred := deferred + awaits[k].arrivals;
          assert session + pendingSessionWrites == deferred && pendingSessionWrites[0] == write;
          if awaits[k].fails { return true; }
        }
        session := session + [write];
        pendingSessionWrites := pendingSessionWrites[1..];
        k := k + 1;
      }
      return false;
    }
  }
}
