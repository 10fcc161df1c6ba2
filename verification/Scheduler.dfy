/** Render requests: none is lost, and those made between two renders are served by one. */
module Scheduler {
  /** `forcedTicks` and `ticks` count next-tick callbacks still to run; `asked` counts the requests
      that found none pending, `renders` the renders done. */
  datatype Sched = Sched(renderRequested: bool, renderTimer: bool, stopped: bool, forcedTicks: nat, ticks: nat,
      asked: nat, renders: nat)

  function Request(s: Sched, force: bool): Sched {
    if force then s.(renderTimer := false, renderRequested := true, forcedTicks := s.forcedTicks + 1,
                     asked := if s.renderRequested then s.asked else s.asked + 1)
    else if s.renderRequested then s
    else s.(renderRequested := true, ticks := s.ticks + 1, asked := s.asked + 1)
  }

  /** The requests that components make while they are rendered. */
  function RequestAll(s: Sched, forces: seq<bool>): Sched
    decreases |forces|
  {
    if forces == [] then s else RequestAll(Request(s, forces[0]), forces[1..])
  }

  function Schedule(s: Sched): Sched {
    if s.stopped || s.renderTimer || !s.renderRequested then s else s.(renderTimer := true)
  }

  function Render(s: Sched, during: seq<bool>): Sched {
    RequestAll(s.(renderRequested := false, renders := s.renders + 1), during)
  }

  datatype Event =
    | Requests(force: bool) | ForcedTick(during: seq<bool>) | Tick | TimerFires(during: seq<bool>) | Stops | Starts

  predicate Enabled(s: Sched, e: Event) {
    match e
    case ForcedTick(_) => s.forcedTicks > 0
    case Tick => s.ticks > 0
    case TimerFires(_) => s.renderTimer
    case _ => true
  }

  function Step(s: Sched, e: Event): Sched
    requires Enabled(s, e)
  {
    match e
    case Requests(force) => Request(s, force)
    case ForcedTick(during) =>
      var t := s.(forcedTicks := s.forcedTicks - 1);
      if t.stopped || !t.renderRequested then t else Render(t, during)
    case Tick => Schedule(s.(ticks := s.ticks - 1))
    case TimerFires(during) =>
      var t := s.(renderTimer := false);
      if t.stopped || !t.renderRequested then t else
        var r := Render(t, during);
        if r.renderRequested then Schedule(r) else r
    case Stops => s.(stopped := true, renderTimer := false)
    case Starts => Request(s.(stopped := false), false)
  }

  /** A callback that will look at the request is outstanding. */
  predicate Outstanding(s: Sched) { s.renderTimer || s.forcedTicks > 0 || s.ticks > 0 }

  predicate Served(s: Sched) {
    && (s.renderRequested && !s.stopped ==> Outstanding(s))
    && (s.stopped ==> !s.renderTimer)
    && s.asked == s.renders + (if s.renderRequested then 1 else 0)
  }

  lemma {:induction false} RequestAllServed(s: Sched, forces: seq<bool>)
    requires Served(s)
    ensures var r := RequestAll(s, forces); Served(r) && r.renders == s.renders && r.stopped == s.stopped
    decreases |forces|
  {
    if forces != [] { RequestAllServed(Request(s, forces[0]), forces[1..]); }
  }

  /** A start after a stop: its own request is dropped when an earlier one is still marked but all
      callbacks have run out meanwhile. */
  predicate Stuck(s: Sched) { s.stopped && s.renderRequested && !Outstanding(s) }

  lemma {:induction false} StepServed(s: Sched, e: Event)
    requires Enabled(s, e) && Served(s)
    ensures Served(Step(s, e)) <==> !(e.Starts? && Stuck(s))
  {
    match e {
      case ForcedTick(during) =>
        if s.renderRequested {
          RequestAllServed(s.(forcedTicks := s.forcedTicks - 1, renderRequested := false, renders := s.renders + 1),
              during);
        }
      case TimerFires(during) =>
        if s.renderRequested {
          RequestAllServed(s.(renderTimer := false, renderRequested := false, renders := s.renders + 1), during);
        }
      case _ =>
    }
  }

  lemma {:induction false} RequestAllMarks(s: Sched, forces: seq<bool>)
    ensures var r := RequestAll(s, forces);
      && r.renders == s.renders && r.stopped == s.stopped && (r.renderTimer ==> s.renderTimer)
      && (r.renderRequested <==> s.renderRequested || forces != [])
    decreases |forces|
  {
    if forces != [] { RequestAllMarks(Request(s, forces[0]), forces[1..]); }
  }

  /** A callback about to run finds a marked request and the screen in use. */
  predicate Finds(s: Sched, e: Event) { (e.ForcedTick? || e.TimerFires?) && s.renderRequested && !s.stopped }

  /** `e` asks for a render, and none was asked for before. */
  predicate FirstAsk(s: Sched, e: Event) { (e.Requests? || e.Starts?) && !s.renderRequested }

  /** A step renders exactly once if it is such a callback and otherwise not at all, so never while stopped,
      and a mark goes only with a render. A forced request always leaves its own callback and disarms the
      timer; any other request leaves one exactly when nothing was marked. What is asked for during a render is
      marked anew. */
  lemma {:induction false} RendersExactly(s: Sched, e: Event)
    requires Enabled(s, e)
    ensures var t := Step(s, e);
      && t.renders == s.renders + (if Finds(s, e) then 1 else 0)
      && (s.renderRequested && !t.renderRequested ==> t.renders == s.renders + 1)
      && (!s.renderRequested && t.renderRequested ==> FirstAsk(s, e))
      && (FirstAsk(s, e) ==> t.renderRequested)
    ensures var t := Step(s, e);
      && (e == Requests(true) ==> t.forcedTicks == s.forcedTicks + 1 && !t.renderTimer && t.renderRequested)
      && (e == Requests(false) || e.Starts? ==> t.ticks == s.ticks + if FirstAsk(s, e) then 1 else 0)
      && (!s.renderTimer && t.renderTimer ==> e.Tick? && s.renderRequested && !s.stopped)
    ensures var t := Step(s, e);
      && (Finds(s, e) ==> (t.renderRequested <==> e.during != []))
      && (e.TimerFires? ==> (t.renderTimer <==> Finds(s, e) && t.renderRequested))
  {
    hide RequestAll;
    if Finds(s, e) {
      var t := if e.ForcedTick? then s.(forcedTicks := s.forcedTicks - 1) else s.(renderTimer := false);
      RequestAllMarks(t.(renderRequested := false, renders := s.renders + 1), e.during);
    }
  }

  ghost predicate IsRun(ss: seq<Sched>, es: seq<Event>) {
    && |ss| == |es| + 1
    && forall i :: 0 <= i < |es| ==> Enabled(ss[i], es[i]) && ss[i + 1] == Step(ss[i], es[i])
  }

  const IDLE := Sched(false, false, false, 0, 0, 0, 0)

  /** In every run whose restarts are not stuck: a marked request has a callback that will serve it,
      and the renders done are the requests that found none pending, less the one still marked. So
      any number of requests between two renders is served by one, and when no callback is
      outstanding nothing is left to render. */
  lemma {:induction false} NoLostRender(ss: seq<Sched>, es: seq<Event>)
    requires IsRun(ss, es) && ss[0] == IDLE
    requires forall i :: 0 <= i < |es| ==> !(es[i].Starts? && Stuck(ss[i]))
    ensures forall i :: 0 <= i < |ss| ==> Served(ss[i])
    ensures var s := ss[|es|]; !Outstanding(s) && !s.stopped ==> s.renders == s.asked && !s.renderRequested
    decreases |es|
  {
    hide Step;
    if es != [] {
      var k := |es| - 1;
      NoLostRender(ss[..k + 1], es[..k]);
      assert Served(ss[k]) by { assert ss[..k + 1][k] == ss[k]; }
      assert Enabled(ss[k], es[k]) && ss[k + 1] == Step(ss[k], es[k]);
      StepServed(ss[k], es[k]);
      forall i | 0 <= i < |ss| ensures Served(ss[i]) {
        if i <= k { assert ss[i] == ss[..k + 1][i]; }
      }
    }
  }

  /** Once stuck, ordinary requests are dropped; a forced one gets the screen going again. */
  lemma {:induction false} StuckUntilForced(s: Sched)
    requires Stuck(s)
    ensures var t := Step(s, Starts);
      Step(t, Requests(false)) == t && !Outstanding(t) && Outstanding(Step(t, Requests(true)))
  {
  }

  /** The scheduler's fields, changed in place. */
  class RenderScheduler {
    var s: Sched

    constructor ()
      ensures s == IDLE && Served(s)
    {
      s := IDLE;
    }

    method RequestRender(force: bool)
      modifies this
      ensures s == Request(old(s), force)
      ensures old(Served(s)) ==> Served(s)
    {
      if force {
        s := s.(renderTimer := false);
        s := s.(asked := if s.renderRequested then s.asked
        else s.asked + 1, renderRequested := true, forcedTicks := s.forcedTicks + 1);
        return;
      }
      if s.renderRequested { return; }
      s := s.(renderRequested := true, asked := s.asked + 1, ticks := s.ticks + 1);
    }

    method ScheduleRender()
      modifies this
      ensures s == Schedule(old(s))
    {
      if s.stopped || s.renderTimer || !s.renderRequested { return; }
      s := s.(renderTimer := true);
    }

    /** A render, with the requests made by the components it calls. */
    method DoRender(during: seq<bool>)
      modifies this
      ensures s == Render(old(s), during)
    {
      s := s.(renderRequested := false, renders := s.renders + 1);
      var i := 0;
      while i < |during|
        invariant 0 <= i <= |during|
        invariant Render(old(s), during) == RequestAll(s, during[i..])
      {
        assert during[i..][1..] == during[i + 1..];
        RequestRender(during[i]);
        i := i + 1;
      }
    }

    method OnForcedTick(during: seq<bool>)
      requires Enabled(s, ForcedTick(during))
      modifies this
      ensures s == Step(old(s), ForcedTick(during))
    {
      s := s.(forcedTicks := s.forcedTicks - 1);
      if s.stopped || !s.renderRequested { return; }
      DoRender(during);
    }

    method OnTick()
      requires Enabled(s, Tick)
      modifies this
      ensures s == Step(old(s), Tick)
    {
      s := s.(ticks := s.ticks - 1);
      ScheduleRender();
    }

    method OnTimer(during: seq<bool>)
      requires Enabled(s, TimerFires(during))
      modifies this
      ensures s == Step(old(s), TimerFires(during))
    {
      s := s.(renderTimer := false);
      if s.stopped || !s.renderRequested { return; }
      DoRender(during);
      if s.renderRequested { ScheduleRender(); }
    }
  }
}
