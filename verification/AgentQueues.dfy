/** A run that is fed by real message queues: what they hand out is injected, once and in order. */
module AgentQueues {
  import opened Basics
  import opened AgentTools
  import opened AgentLoop
  import Queues

  type MessageQueue = Queues.PendingMessageQueue<Message>

  // ----- What the polls of a turn hand out

  function SteerOf(s: TurnScript): seq<Message> { if Failed(s) || s.stop then [] else s.steering }

  /** Follow-ups are asked for only when the run would end otherwise. */
  function FollowOf(s: TurnScript): seq<Message> {
    if Failed(s) || s.stop || MoreCalls(s) || s.steering != [] then [] else s.followUps
  }

  function HandedOf(s: TurnScript): seq<Message> { SteerOf(s) + FollowOf(s) }

  function SteerOut(script: seq<TurnScript>): seq<Message> {
    if script == [] then [] else SteerOut(script[..|script| - 1]) + SteerOf(script[|script| - 1])
  }

  function FollowOut(script: seq<TurnScript>): seq<Message> {
    if script == [] then [] else FollowOut(script[..|script| - 1]) + FollowOf(script[|script| - 1])
  }

  function Handed(script: seq<TurnScript>): seq<Message> {
    if script == [] then [] else Handed(script[..|script| - 1]) + HandedOf(script[|script| - 1])
  }

  function Injected(turns: seq<Turn>): seq<Message> {
    if turns == [] then [] else Injected(turns[..|turns| - 1]) + turns[|turns| - 1].injected
  }

  lemma {:induction false} NextIsHanded(s: TurnScript)
    ensures if Final(s) then HandedOf(s) == [] else HandedOf(s) == Next(s)
  {
    hide MoreCalls, Failed;
  }

  /** Everything handed out after a turn is injected into the next one, and nothing else is. */
  lemma {:induction false} InjectedOnce(first: seq<Message>, script: seq<TurnScript>, turns: seq<Turn>, n: nat)
    requires Chained(first, script, turns) && 0 < n <= |turns|
    ensures Injected(turns[..n]) == first + Handed(script[..n - 1])
    decreases n
  {
    hide WellFormedTurn, HandedOf, Next, Final;
    assert turns[..n][..n - 1] == turns[..n - 1];
    if n == 1 {
      assert turns[..0] == [] && script[..0] == [] && first + [] == first && [] + first == first;
    } else {
      InjectedOnce(first, script, turns, n - 1);
      assert Follows(script, turns, n - 1);
      NextIsHanded(script[n - 2]);
      assert script[..n - 1][..n - 2] == script[..n - 2];
      Reassociate(first, Handed(script[..n - 2]), HandedOf(script[n - 2]));
    }
  }

  // ----- The run

  /** Messages that are queued before the polls of one turn. */
  datatype Arrival = Arrival(steer: seq<Message>, follow: seq<Message>)

  function SteerIn(arrivals: seq<Arrival>): seq<Message> {
    if arrivals == [] then [] else SteerIn(arrivals[..|arrivals| - 1]) + arrivals[|arrivals| - 1].steer
  }

  function FollowIn(arrivals: seq<Arrival>): seq<Message> {
    if arrivals == [] then [] else FollowIn(arrivals[..|arrivals| - 1]) + arrivals[|arrivals| - 1].follow
  }

  method EnqueueAll(queue: MessageQueue, ms: seq<Message>)
    requires queue.Valid()
    modifies queue
    ensures queue.Valid() && queue.enqueued == old(queue.enqueued) + ms && queue.drained == old(queue.drained)
  {
    for i := 0 to |ms|
      invariant queue.Valid() && queue.enqueued == old(queue.enqueued) + ms[..i] && queue.drained == old(queue.drained)
    {
      assert ms[..i + 1] == ms[..i] + [ms[i]];
      queue.Enqueue(ms[i]);
    }
    assert ms[..|ms|] == ms;
  }

  /** The polls at the end of one turn. */
  method Poll(s: TurnScript, steer: MessageQueue, follow: MessageQueue) returns (r: TurnScript)
    requires steer != follow && steer.Valid() && follow.Valid()
    modifies steer, follow
    ensures steer.Valid() && follow.Valid() && r == s.(steering := r.steering, followUps := r.followUps)
    ensures steer.drained == old(steer.drained) + SteerOf(r) && steer.enqueued == old(steer.enqueued)
    ensures follow.drained == old(follow.drained) + FollowOf(r) && follow.enqueued == old(follow.enqueued)
  {
    hide MoreCalls, Failed;
    r := s.(steering := [], followUps := []);
    SamePolls(s, r);
    if !Failed(s) && !s.stop {
      var steering := steer.Drain();
      r := r.(steering := steering);
      SamePolls(s, r);
      if !MoreCalls(s) && steering == [] {
        var followUps := follow.Drain();
        r := r.(followUps := followUps);
        SamePolls(s, r);
      }
    }
  }

  lemma {:induction false} SamePolls(s: TurnScript, r: TurnScript)
    requires r == s.(steering := r.steering, followUps := r.followUps)
    ensures Failed(r) == Failed(s) && MoreCalls(r) == MoreCalls(s) && (Possible(r) <==> Possible(s))
  {
  }

  /** Messages arrive, and the turn's polls follow. */
  method FeedTurn(s: TurnScript, arrival: Arrival, steer: MessageQueue, follow: MessageQueue) returns (r: TurnScript)
    requires steer != follow && steer.Valid() && follow.Valid() && Possible(s)
    modifies steer, follow
    ensures steer.Valid() && follow.Valid() && Possible(r)
    ensures steer.drained == old(steer.drained) + SteerOf(r) && steer.enqueued == old(steer.enqueued) + arrival.steer
    ensures follow.drained == old(follow.drained) + FollowOf(r)
    ensures follow.enqueued == old(follow.enqueued) + arrival.follow
  {
    hide Possible, SteerOf, FollowOf;
    EnqueueAll(steer, arrival.steer);
    EnqueueAll(follow, arrival.follow);
    r := Poll(s, steer, follow);
    SamePolls(s, r);
  }

  /** What the two queues have taken in and handed out since they were as in `d` and `e`. */
  ghost predicate Fed(d: Moved, e: Moved, script: seq<TurnScript>, arrivals: seq<Arrival>) {
    && e.steerOut == d.steerOut + SteerOut(script) && e.followOut == d.followOut + FollowOut(script)
    && e.steerIn == d.steerIn + SteerIn(arrivals) && e.followIn == d.followIn + FollowIn(arrivals)
  }

  datatype Moved = Moved(steerOut: seq<Message>, followOut: seq<Message>, steerIn: seq<Message>, followIn: seq<Message>)

  ghost function Now(steer: MessageQueue, follow: MessageQueue): Moved
    reads steer, follow
  {
    Moved(steer.drained, follow.drained, steer.enqueued, follow.enqueued)
  }

  lemma {:induction false} FedNothing(d: Moved)
    ensures Fed(d, d, [], [])
  {
  }

  lemma {:induction false} FedMore(d: Moved, e: Moved, e': Moved, script: seq<TurnScript>, arrivals: seq<Arrival>,
      s: TurnScript, arrival: Arrival)
    requires Fed(d, e, script, arrivals)
    requires e'.steerOut == e.steerOut + SteerOf(s) && e'.followOut == e.followOut + FollowOf(s)
    requires e'.steerIn == e.steerIn + arrival.steer && e'.followIn == e.followIn + arrival.follow
    ensures Fed(d, e', script + [s], arrivals + [arrival])
  {
    hide SteerOf, FollowOf;
    assert (script + [s])[..|script|] == script && (arrivals + [arrival])[..|arrivals|] == arrivals;
    Reassociate(d.steerOut, SteerOut(script), SteerOf(s));
    Reassociate(d.followOut, FollowOut(script), FollowOf(s));
    Reassociate(d.steerIn, SteerIn(arrivals), arrival.steer);
    Reassociate(d.followIn, FollowIn(arrivals), arrival.follow);
  }

  /** The script that the queues produce for a run: it ends with the first turn after which there is
      nothing left to do, or with the last turn given. */
  method Script(outside: seq<TurnScript>, arrivals: seq<Arrival>, steer: MessageQueue, follow: MessageQueue)
      returns (script: seq<TurnScript>)
    requires steer != follow && steer.Valid() && follow.Valid() && outside != [] && |arrivals| == |outside|
    requires forall i :: 0 <= i < |outside| ==> Possible(outside[i])
    modifies steer, follow
    ensures steer.Valid() && follow.Valid() && 0 < |script| <= |outside|
    ensures forall i :: 0 <= i < |script| ==> Possible(script[i])
    ensures forall i :: 0 <= i < |script| - 1 ==> !Final(script[i])
    ensures !Final(script[|script| - 1]) ==> |script| == |outside|
    ensures Fed(old(Now(steer, follow)), Now(steer, follow), script, arrivals[..|script|])
  {
    hide Possible, Final, SteerOf, FollowOf, Fed;
    script := [];
    var i := 0;
    ghost var start := Now(steer, follow);
    FedNothing(start);
    assert arrivals[..0] == [];
    while i < |outside| && (i == 0 || !Final(script[i - 1]))
      invariant 0 <= i == |script| <= |outside| && steer.Valid() && follow.Valid()
      invariant forall k :: 0 <= k < i ==> Possible(script[k])
      invariant forall k :: 0 <= k < i - 1 ==> !Final(script[k])
      invariant Fed(start, Now(steer, follow), script, arrivals[..i])
    {
      ghost var before := Now(steer, follow);
      var s := FeedTurn(outside[i], arrivals[i], steer, follow);
      assert arrivals[..i + 1] == arrivals[..i] + [arrivals[i]];
      FedMore(start, before, Now(steer, follow), script, arrivals[..i], s, arrivals[i]);
      script := script + [s];
      i := i + 1;
    }
  }

  /** Everything the queues handed out, after the prompts. */
  ghost predicate InjectsAll(prompts: seq<Message>, steering: seq<Message>, script: seq<TurnScript>, turns: seq<Turn>) {
    |turns| == |script| > 0
    && Injected(turns) + HandedOf(script[|script| - 1]) == prompts + steering + Handed(script)
  }

  /** A run fed by the agent's two queues while messages keep arriving. Whether it ends because there is
      nothing left to do, in an error, by a stop hook or not at all yet: the injected messages are the
      prompts followed by everything drained, in the order it was drained, except for what was drained
      last if its turn is still to come; and for each queue drained ++ queued is everything enqueued. */
  method RunWithQueues(initial: seq<Message>, prompts: seq<Message>, skipInitialSteeringPoll: bool,
      outside: seq<TurnScript>, arrivals: seq<Arrival>, steer: MessageQueue, follow: MessageQueue)
      returns (trace: seq<Event>, newMessages: seq<Message>, finished: bool, steering: seq<Message>,
          script: seq<TurnScript>)
    requires steer != follow && steer.Valid() && follow.Valid() && outside != [] && |arrivals| == |outside|
    requires forall i :: 0 <= i < |outside| ==> Possible(outside[i])
    modifies steer, follow
    ensures steer.Valid() && follow.Valid()
    ensures exists turns, context ::
      && RunOk(initial, prompts + steering, script, turns, trace, newMessages, context, finished)
      && InjectsAll(prompts, steering, script, turns)
    ensures finished ==> HandedOf(script[|script| - 1]) == []
    ensures steer.drained == old(steer.drained) + (steering + SteerOut(script))
    ensures follow.drained == old(follow.drained) + FollowOut(script)
    ensures |script| <= |arrivals| && steer.enqueued == old(steer.enqueued) + SteerIn(arrivals[..|script|])
    ensures follow.enqueued == old(follow.enqueued) + FollowIn(arrivals[..|script|])
  {
    hide Possible, Final, SteerOut, FollowOut, SteerIn, FollowIn, HandedOf, RunOk, InjectsAll;
    steering := [];
    if !skipInitialSteeringPoll { steering := steer.Drain(); }
    script := Script(outside, arrivals, steer, follow);
    Reassociate(old(steer.drained), steering, SteerOut(script));
    var context: seq<Message>;
    trace, newMessages, context, finished := RunAgentLoop(initial, prompts, steering, script);
    ghost var turns :| RunOk(initial, prompts + steering, script, turns, trace, newMessages, context, finished);
    RunInjects(initial, prompts, steering, script, turns, trace, newMessages, context, finished);
  }

  lemma {:induction false} RunInjects(initial: seq<Message>, prompts: seq<Message>, steering: seq<Message>,
      script: seq<TurnScript>, turns: seq<Turn>, trace: seq<Event>, newMessages: seq<Message>, context: seq<Message>,
      finished: bool)
    requires RunOk(initial, prompts + steering, script, turns, trace, newMessages, context, finished)
    requires script != [] && forall i :: 0 <= i < |script| - 1 ==> !Final(script[i])
    ensures InjectsAll(prompts, steering, script, turns)
    ensures finished ==> HandedOf(script[|script| - 1]) == []
  {
    hide Final, HandedOf, WellFormedTurn, Events, Ended, Books, Follows;
    var n := |turns|;
    assert turns[n - 1].script == script[n - 1];
    assert n == |script|;
    InjectedOnce(prompts + steering, script, turns, n);
    assert turns[..n] == turns && script[..n] == script;
    NextIsHanded(script[n - 1]);
    assert script[..n - 1] == script[..|script| - 1];
    Reassociate(prompts + steering, Handed(script[..n - 1]), HandedOf(script[n - 1]));
  }
}
