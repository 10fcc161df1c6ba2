/** The agent's own transcript and set of pending tool calls, kept by reducing the loop's events. */
module AgentState {
  import opened Basics
  import opened AgentTools
  import opened AgentLoop

  datatype State = State(messages: seq<Message>, streaming: Option<Message>, pending: set<string>)

  function Reduce(st: State, e: Event): State {
    match e
    case MessageStart(m) => st.(streaming := Some(m))
    case MessageUpdate(m) => st.(streaming := Some(m))
    case MessageEnd(m) => st.(streaming := None, messages := st.messages + [m])
    case ToolStart(id) => st.(pending := st.pending + {id})
    case ToolEnd(id, _, _) => st.(pending := st.pending - {id})
    case AgentEnd(_) => st.(streaming := None)
    case _ => st
  }

  function ReduceAll(st: State, events: seq<Event>): State {
    if events == [] then st else Reduce(ReduceAll(st, events[..|events| - 1]), events[|events| - 1])
  }

  /** The agent as the object the events are handed to. */
  class Agent {
    var messages: seq<Message>
    var streamingMessage: Option<Message>
    var pendingToolCalls: set<string>

    function Value(): State
      reads this
    {
      State(messages, streamingMessage, pendingToolCalls)
    }

    constructor (initial: seq<Message>)
      ensures Value() == State(initial, None, {})
    {
      messages, streamingMessage, pendingToolCalls := initial, Option.None, {};
    }

    method ProcessEvent(event: Event)
      modifies this
      ensures Value() == Reduce(old(Value()), event)
    {
      match event {
        case MessageStart(m) => streamingMessage := Some(m);
        case MessageUpdate(m) => streamingMessage := Some(m);
        case MessageEnd(m) =>
          streamingMessage := Option.None;
          messages := messages + [m];
        case ToolStart(id) => pendingToolCalls := pendingToolCalls + {id};
        case ToolEnd(id, _, _) => pendingToolCalls := pendingToolCalls - {id};
        case AgentEnd(_) => streamingMessage := Option.None;
        case _ =>
      }
    }

    method ProcessEvents(events: seq<Event>)
      modifies this
      ensures Value() == ReduceAll(old(Value()), events)
    {
      hide Reduce;
      for i := 0 to |events|
        invariant Value() == ReduceAll(old(Value()), events[..i])
      {
        assert events[..i + 1][..i] == events[..i];
        ProcessEvent(events[i]);
      }
      assert events[..|events|] == events;
    }
  }

  // ----- Two replicas of the transcript

  /** The reduced transcript is what was there before and every message whose end was announced. */
  lemma {:induction false} Transcript(st: State, events: seq<Event>)
    ensures ReduceAll(st, events).messages == st.messages + Ended(events)
    decreases |events|
  {
    if events == [] {
      assert st.messages + [] == st.messages;
    } else {
      var k := |events| - 1;
      Transcript(st, events[..k]);
      if events[k].MessageEnd? {
        Reassociate(st.messages, Ended(events[..k]), [events[k].message]);
      } else {
        assert Ended(events[..k]) + [] == Ended(events[..k]);
      }
    }
  }

  /** The events that say which message is being streamed. */
  predicate TellsStream(e: Event) { e.MessageStart? || e.MessageUpdate? || e.MessageEnd? || e.AgentEnd? }

  /** The streaming message is the one last started or updated, and none once it or the run has ended. */
  lemma {:induction false} StreamingIs(st: State, events: seq<Event>, k: nat)
    requires k < |events| && TellsStream(events[k]) && forall j :: k < j < |events| ==> !TellsStream(events[j])
    ensures ReduceAll(st, events).streaming
         == if events[k].MessageStart? || events[k].MessageUpdate? then Some(events[k].message) else None
    decreases |events|
  {
    var n := |events| - 1;
    if k < n {
      StreamingIs(st, events[..n], k);
    }
  }

  /** The agent's transcript is always the initial messages followed by the collected ones. The loop's
      private context is the same at the end of the run if and only if no stream began a message more
      than once, and then the three agree at every end of a turn. */
  lemma {:induction false} ReplicasAgree(st: State, first: seq<Message>, script: seq<TurnScript>, turns: seq<Turn>,
      trace: seq<Event>, newMessages: seq<Message>, context: seq<Message>, finished: bool, i: nat)
    requires RunOk(st.messages, first, script, turns, trace, newMessages, context, finished) && NeverReplaced(script)
    requires i < |turns|
    ensures var prefix := [AgentStart] + Events(turns[..i + 1]);
      && ReduceAll(st, prefix).messages == st.messages + Ended(prefix)
      && (StaleIn(turns) == 0 ==> turns[i].context == st.messages + Ended(prefix))
    ensures ReduceAll(st, trace).messages == st.messages + newMessages
    ensures context == st.messages + newMessages <==> StaleIn(turns) == 0
  {
    hide Ended, Events, Chained, Final, StaleIn;
    var turnsSoFar := Events(turns[..i + 1]);
    Transcript(st, [AgentStart] + turnsSoFar);
    Transcript(st, trace);
    EndedConcat([AgentStart], turnsSoFar);
    SilentEnded([AgentStart]);
    assert [] + Ended(turnsSoFar) == Ended(turnsSoFar);
  }

  // ----- Pending tool calls

  function Started(events: seq<Event>): set<string> {
    set i | 0 <= i < |events| && events[i].ToolStart? :: events[i].id
  }

  function EndedIds(events: seq<Event>): set<string> {
    set i | 0 <= i < |events| && events[i].ToolEnd? :: events[i].id
  }

  /** A call is started at most once and not after its end. */
  ghost predicate Orderly(events: seq<Event>) {
    forall k :: 0 <= k < |events| && events[k].ToolStart? ==>
      events[k].id !in Started(events[..k]) && events[k].id !in EndedIds(events[..k])
  }

  lemma {:induction false} StartedSnoc(events: seq<Event>)
    requires events != []
    ensures var k := |events| - 1; var e := events[k];
      && Started(events) == Started(events[..k]) + (if e.ToolStart? then {e.id} else {})
      && EndedIds(events) == EndedIds(events[..k]) + (if e.ToolEnd? then {e.id} else {})
  {
    var k := |events| - 1;
    assert forall i :: 0 <= i < k ==> events[..k][i] == events[i];
  }

  lemma {:induction false} OrderlyPrefix(events: seq<Event>, n: nat)
    requires Orderly(events) && n <= |events|
    ensures Orderly(events[..n])
  {
    hide Started, EndedIds;
    forall k | 0 <= k < n && events[..n][k].ToolStart?
      ensures events[..n][k].id !in Started(events[..n][..k]) && events[..n][k].id !in EndedIds(events[..n][..k])
    {
      assert events[..n][..k] == events[..k];
    }
  }

  /** The pending calls are those started and not ended. */
  lemma {:induction false} PendingIs(st: State, events: seq<Event>)
    requires Orderly(events) && st.pending == {}
    ensures ReduceAll(st, events).pending == Started(events) - EndedIds(events)
    decreases |events|
  {
    if events != [] {
      var k := |events| - 1;
      OrderlyPrefix(events, k);
      PendingIs(st, events[..k]);
      StartedSnoc(events);
    }
  }

  // ----- Every call that starts ends in its turn

  function IdsOf(jobs: seq<Job>): seq<string> {
    seq(|jobs|, i requires 0 <= i < |jobs| => jobs[i].call.id)
  }

  function SetOf(ids: seq<string>): set<string> { set id | id in ids }

  predicate NoDup(ids: seq<string>) { forall i, j :: 0 <= i < j < |ids| ==> ids[i] != ids[j] }

  /** Exactly the calls `ids` start, each once and before its end, and all of them end. */
  ghost predicate Balanced(events: seq<Event>, ids: seq<string>) {
    Orderly(events) && Started(events) == SetOf(ids) == EndedIds(events)
  }

  lemma {:induction false} StartedConcat(a: seq<Event>, b: seq<Event>)
    ensures Started(a + b) == Started(a) + Started(b) && EndedIds(a + b) == EndedIds(a) + EndedIds(b)
  {
    var c := a + b;
    assert forall i :: 0 <= i < |a| ==> c[i] == a[i];
    assert forall i :: 0 <= i < |b| ==> c[|a| + i] == b[i];
    assert forall i :: |a| <= i < |c| ==> c[i] == b[i - |a|];
  }

  lemma {:induction false} OrderlyConcat(a: seq<Event>, b: seq<Event>)
    requires Orderly(a) && Orderly(b) && Started(b) !! Started(a) + EndedIds(a)
    ensures Orderly(a + b)
  {
    var c := a + b;
    forall k | 0 <= k < |c| && c[k].ToolStart?
      ensures c[k].id !in Started(c[..k]) && c[k].id !in EndedIds(c[..k])
    {
      if k < |a| {
        assert c[..k] == a[..k] && c[k] == a[k];
      } else {
        assert c[..k] == a + b[..k - |a|] && c[k] == b[k - |a|];
        StartedConcat(a, b[..k - |a|]);
        assert c[k].id in Started(b);
      }
    }
  }

  lemma {:induction false} BalancedConcat(a: seq<Event>, x: seq<string>, b: seq<Event>, y: seq<string>)
    requires Balanced(a, x) && Balanced(b, y) && NoDup(x + y)
    ensures Balanced(a + b, x + y)
  {
    hide Orderly, Started, EndedIds;
    StartedConcat(a, b);
    assert SetOf(x) !! SetOf(y) by {
      forall i, j | 0 <= i < |x| && 0 <= j < |y| ensures x[i] != y[j] {
        assert (x + y)[i] == x[i] && (x + y)[|x| + j] == y[j];
      }
    }
    OrderlyConcat(a, b);
    assert SetOf(x + y) == SetOf(x) + SetOf(y);
  }

  predicate Quiet(events: seq<Event>) {
    forall i :: 0 <= i < |events| ==> !events[i].ToolStart? && !events[i].ToolEnd?
  }

  lemma {:induction false} QuietBalanced(events: seq<Event>)
    requires Quiet(events)
    ensures Balanced(events, [])
  {
  }

  lemma {:induction false} QuietAround(a: seq<Event>, b: seq<Event>, ids: seq<string>, c: seq<Event>)
    requires Quiet(a) && Balanced(b, ids) && NoDup(ids) && Quiet(c)
    ensures Balanced(a + b + c, ids)
  {
    hide Balanced;
    QuietBalanced(a);
    QuietBalanced(c);
    assert [] + ids == ids && ids + [] == ids;
    BalancedConcat(a, [], b, ids);
    BalancedConcat(a + b, ids, c, []);
  }

  lemma {:induction false} RunOfBalanced(j: Job)
    ensures Balanced(RunOf(j), [j.call.id])
  {
    hide Immediate, Executed;
    var f := Outcome(j);
    assert f.call == j.call by { OutcomeCall(j); }
    var a := [ToolStart(j.call.id)];
    var u := if Immediate(j).Some? then [] else Updates(j);
    var b := [EndOf(f)];
    assert Started(a) == {a[0].id} && EndedIds(a) == {} && Orderly(a);
    assert Started(u) == {} && EndedIds(u) == {} && Orderly(u);
    assert b[0].ToolEnd? && Started(b) == {} && EndedIds(b) == {b[0].id} && Orderly(b);
    var c := Announce(MessageOf(f));
    assert Started(c) == {} && EndedIds(c) == {} && Orderly(c);
    StartedConcat(a, u); OrderlyConcat(a, u);
    StartedConcat(a + u, b); OrderlyConcat(a + u, b);
    StartedConcat(a + u + b, c); OrderlyConcat(a + u + b, c);
    assert SetOf([j.call.id]) == {j.call.id};
  }

  lemma {:induction false} OutcomeCall(j: Job)
    ensures Outcome(j).call == j.call
  {
  }

  lemma {:induction false} SequentialBalanced(jobs: seq<Job>)
    requires NoDup(IdsOf(jobs))
    ensures Balanced(SequentialTrace(jobs), IdsOf(jobs))
    decreases |jobs|
  {
    hide Balanced, RunOf;
    if jobs == [] {
      QuietBalanced([]);
    } else {
      var k := |jobs| - 1;
      assert IdsOf(jobs) == IdsOf(jobs[..k]) + [jobs[k].call.id];
      NoDupPrefix(IdsOf(jobs), k);
      assert IdsOf(jobs)[..k] == IdsOf(jobs[..k]);
      SequentialBalanced(jobs[..k]);
      RunOfBalanced(jobs[k]);
      BalancedConcat(SequentialTrace(jobs[..k]), IdsOf(jobs[..k]), RunOf(jobs[k]), [jobs[k].call.id]);
    }
  }

  lemma {:induction false} NoDupPrefix(ids: seq<string>, k: nat)
    requires NoDup(ids) && k <= |ids|
    ensures NoDup(ids[..k]) && NoDup(ids[k..])
  {
  }

  /** Ids of the calls settled at once, or of those whose tool runs. */
  function Settled(jobs: seq<Job>, atOnce: bool): set<string> {
    set i | 0 <= i < |jobs| && Immediate(jobs[i]).Some? == atOnce :: jobs[i].call.id
  }

  lemma {:induction false} SettledSplit(jobs: seq<Job>)
    ensures Settled(jobs, true) + Settled(jobs, false) == SetOf(IdsOf(jobs))
  {
    hide Immediate;
    forall id | id in SetOf(IdsOf(jobs)) ensures id in Settled(jobs, true) + Settled(jobs, false) {
      var i :| 0 <= i < |jobs| && IdsOf(jobs)[i] == id;
      assert jobs[i].call.id == id;
    }
    forall id | id in Settled(jobs, true) + Settled(jobs, false) ensures id in IdsOf(jobs) {
      var i :| 0 <= i < |jobs| && jobs[i].call.id == id;
      assert IdsOf(jobs)[i] == id;
    }
  }

  lemma {:induction false} SettledSnoc(jobs: seq<Job>, atOnce: bool)
    requires jobs != []
    ensures var k := |jobs| - 1;
      Settled(jobs, atOnce)
          == Settled(jobs[..k], atOnce) + (if Immediate(jobs[k]).Some? == atOnce then {jobs[k].call.id} else {})
  {
    hide Immediate;
    var k := |jobs| - 1;
    assert forall i :: 0 <= i < k ==> jobs[..k][i] == jobs[i];
  }

  /** The first pass starts every call once and ends those settled at once. */
  lemma {:induction false} OpeningFacts(jobs: seq<Job>)
    requires NoDup(IdsOf(jobs))
    ensures Orderly(Opening(jobs)) && Started(Opening(jobs)) == SetOf(IdsOf(jobs))
      && EndedIds(Opening(jobs)) == Settled(jobs, true)
    decreases |jobs|
  {
    hide Immediate, Outcome, Orderly, Started, EndedIds, Settled;
    if jobs == [] {
      QuietBalanced([]);
      SettledSplit(jobs);
    } else {
      var k := |jobs| - 1;
      var init, j := jobs[..k], jobs[k];
      assert IdsOf(jobs) == IdsOf(init) + [j.call.id];
      assert IdsOf(jobs)[..k] == IdsOf(init);
      NoDupPrefix(IdsOf(jobs), k);
      OpeningFacts(init);
      SettledSnoc(jobs, true);
      SettledSplit(init);
      OpeningOne(j);
      var own := [ToolStart(j.call.id)] + (if Immediate(j).Some? then [EndOf(Outcome(j))] else []);
      assert Opening(jobs) == Opening(init) + own;
      StartedConcat(Opening(init), own);
      assert j.call.id !in IdsOf(init) by {
        assert IdsOf(jobs)[k] == j.call.id;
        assert forall i :: 0 <= i < k ==> IdsOf(init)[i] == IdsOf(jobs)[i];
      }
      OrderlyConcat(Opening(init), own);
      assert SetOf(IdsOf(init) + [j.call.id]) == SetOf(IdsOf(init)) + {j.call.id};
    }
  }

  lemma {:induction false} OpeningOne(j: Job)
    ensures var own := [ToolStart(j.call.id)] + (if Immediate(j).Some? then [EndOf(Outcome(j))] else []);
      Orderly(own) && Started(own) == {j.call.id} && EndedIds(own) == if Immediate(j).Some? then {j.call.id} else {}
  {
    hide Immediate;
    OutcomeCall(j);
    var a := [ToolStart(j.call.id)];
    var b := if Immediate(j).Some? then [EndOf(Outcome(j))] else [];
    assert Started(a) == {a[0].id} && EndedIds(a) == {} && Orderly(a);
    assert b != [] ==> b[0].ToolEnd?;
    assert Started(b) == {} && Orderly(b);
    assert EndedIds(b) == if Immediate(j).Some? then {b[0].id} else {};
    StartedConcat(a, b);
    OrderlyConcat(a, b);
  }

  lemma {:induction false} OfMember(tags: seq<nat>, events: seq<Event>, i: nat, e: Event)
    requires |tags| == |events| && e in Of(tags, events, i)
    ensures e in events
    decreases |tags|
  {
    if tags != [] {
      var k := |tags| - 1;
      if e in Of(tags[..k], events[..k], i) { OfMember(tags[..k], events[..k], i, e); }
    }
  }

  /** The running tools start nothing and end each of their calls. */
  lemma {:induction false} RunningFacts(jobs: seq<Job>, tags: seq<nat>, events: seq<Event>)
    requires Interleaves(jobs, tags, events)
    ensures Orderly(events) && Started(events) == {} && EndedIds(events) == Settled(jobs, false)
  {
    hide Of, Immediate, Executed;
    RunningKinds(jobs, tags, events);
    forall id | id in EndedIds(events) ensures id in Settled(jobs, false) {
      var k :| 0 <= k < |events| && events[k].ToolEnd? && events[k].id == id;
      TaggedMember(tags, events, k);
      OutcomeCall(jobs[tags[k]]);
      assert events[k] in Steps(jobs[tags[k]]);
    }
    forall id | id in Settled(jobs, false) ensures id in EndedIds(events) {
      var i :| 0 <= i < |jobs| && Immediate(jobs[i]).Some? == false && jobs[i].call.id == id;
      OutcomeCall(jobs[i]);
      var steps := Steps(jobs[i]);
      assert steps[|steps| - 1] == EndOf(Outcome(jobs[i]));
      OfMember(tags, events, i, EndOf(Outcome(jobs[i])));
      var k :| 0 <= k < |events| && events[k] == EndOf(Outcome(jobs[i]));
    }
  }

  lemma {:induction false} AnnouncementsQuiet(ms: seq<Message>)
    ensures Quiet(Announcements(ms))
    decreases |ms|
  {
    if ms != [] { AnnouncementsQuiet(ms[..|ms| - 1]); }
  }

  lemma {:induction false} GroupBalanced(jobs: seq<Job>, events: seq<Event>)
    requires GroupTrace(jobs, events) && NoDup(IdsOf(Taken(jobs)))
    ensures Balanced(events, IdsOf(Taken(jobs)))
  {
    hide Taken, Opening, Interleaves, Orderly, Started, EndedIds, Settled, Messages, Quiet;
    var taken := Taken(jobs);
    var running, tags :| Interleaves(taken, tags, running)
        && events == Opening(taken) + running + Announcements(Messages(taken));
    OpeningFacts(taken);
    RunningFacts(taken, tags, running);
    SettledSplit(taken);
    StartedConcat(Opening(taken), running);
    OrderlyConcat(Opening(taken), running);
    AnnouncementsQuiet(Messages(taken));
    var m := Announcements(Messages(taken));
    QuietBalanced(m);
    assert SetOf([]) == {};
    StartedConcat(Opening(taken) + running, m);
    OrderlyConcat(Opening(taken) + running, m);
  }

  /** The calls that groups take up, in order. */
  function TakenOf(groups: seq<Group>): seq<Job> {
    if groups == [] then [] else TakenOf(groups[..|groups| - 1]) + Taken(groups[|groups| - 1].jobs)
  }

  lemma {:induction false} IdsConcat(a: seq<Job>, b: seq<Job>)
    ensures IdsOf(a + b) == IdsOf(a) + IdsOf(b)
  {
  }

  lemma {:induction false} NoDupParts(a: seq<string>, b: seq<string>)
    requires NoDup(a + b)
    ensures NoDup(a) && NoDup(b)
  {
    NoDupPrefix(a + b, |a|);
    assert (a + b)[..|a|] == a && (a + b)[|a|..] == b;
  }

  lemma {:induction false} PartsBalanced(groups: seq<Group>, parts: seq<seq<Event>>)
    requires GroupTraces(groups, parts) && NoDup(IdsOf(TakenOf(groups)))
    ensures Balanced(Concat(parts), IdsOf(TakenOf(groups)))
    decreases |groups|
  {
    hide Balanced, Taken, GroupTrace;
    if groups == [] {
      QuietBalanced([]);
    } else {
      var k := |groups| - 1;
      var a, b := TakenOf(groups[..k]), Taken(groups[k].jobs);
      IdsConcat(a, b);
      NoDupParts(IdsOf(a), IdsOf(b));
      PartsBalanced(groups[..k], parts[..k]);
      GroupBalanced(groups[k].jobs, parts[k]);
      BalancedConcat(Concat(parts[..k]), IdsOf(a), parts[k], IdsOf(b));
    }
  }

  /** The calls a batch takes up, whichever way they are executed. */
  function TakenIn(jobs: seq<Job>, plan: Plan): seq<Job> {
    if plan.sequential then Taken(jobs)
    else if |GroupsOf(jobs, plan)| <= 1 then Taken(Sole(jobs, plan).jobs)
    else TakenOf(GroupsRun(GroupsOf(jobs, plan)))
  }

  function TakenUp(s: TurnScript): seq<Job> { if RunsTools(s) then TakenIn(s.jobs, s.plan) else [] }

  lemma {:induction false} BatchBalanced(jobs: seq<Job>, plan: Plan, events: seq<Event>)
    requires BatchTrace(jobs, plan, events) && NoDup(IdsOf(TakenIn(jobs, plan)))
    ensures Balanced(events, IdsOf(TakenIn(jobs, plan)))
  {
    hide Balanced, Taken, GroupTrace, GroupsRun, SequentialTrace;
    if plan.sequential {
      SequentialBalanced(Taken(jobs));
    } else if |GroupsOf(jobs, plan)| <= 1 {
      GroupBalanced(Sole(jobs, plan).jobs, events);
    } else {
      var groups := GroupsOf(jobs, plan);
      var parts :| GroupTraces(GroupsRun(groups), parts) && events == Concat(parts);
      PartsBalanced(GroupsRun(groups), parts);
    }
  }

  lemma {:induction false} TurnBalanced(t: Turn)
    requires WellFormedTurn(t) && NoDup(IdsOf(TakenUp(t.script)))
    ensures Balanced(t.events, IdsOf(TakenUp(t.script)))
  {
    hide Balanced, BatchTrace, Ended, ResultsOf, OneMessage, Answers, Stale, Quiet, NoDup, Announcements;
    var s := t.script;
    var body := t.events[1..];
    var answer, tools :| TurnParts(body, t.injected, s, answer, tools);
    var a := Announcements(t.injected);
    var head, end := [TurnStart] + (a + answer), [TurnEnd(s.final, ResultsOf(s))];
    HeadQuiet(t.injected, answer, s.final, ResultsOf(s));
    ToolsBalanced(s, tools);
    Reassociate([TurnStart], a + answer, tools);
    Reassociate([TurnStart], a + answer + tools, end);
    assert t.events == [TurnStart] + body;
    QuietAround(head, tools, IdsOf(TakenUp(s)), end);
  }

  lemma {:induction false} ToolsBalanced(s: TurnScript, tools: seq<Event>)
    requires (if RunsTools(s) then BatchTrace(s.jobs, s.plan, tools) else tools == []) && NoDup(IdsOf(TakenUp(s)))
    ensures Balanced(tools, IdsOf(TakenUp(s)))
  {
    hide Balanced, BatchTrace;
    if RunsTools(s) {
      BatchBalanced(s.jobs, s.plan, tools);
    } else {
      QuietBalanced(tools);
      assert IdsOf(TakenUp(s)) == [];
    }
  }

  lemma {:induction false} HeadQuiet(injected: seq<Message>, answer: seq<Event>, final: Message, results: seq<Message>)
    requires Answers(answer, final)
    ensures Quiet([TurnStart] + (Announcements(injected) + answer)) && Quiet([TurnEnd(final, results)])
  {
    AnnouncementsQuiet(injected);
  }

  function TakenInRun(turns: seq<Turn>): seq<Job> {
    if turns == [] then [] else TakenInRun(turns[..|turns| - 1]) + TakenUp(turns[|turns| - 1].script)
  }

  lemma {:induction false} TurnsBalanced(turns: seq<Turn>)
    requires (forall i :: 0 <= i < |turns| ==> WellFormedTurn(turns[i])) && NoDup(IdsOf(TakenInRun(turns)))
    ensures Balanced(Events(turns), IdsOf(TakenInRun(turns)))
    decreases |turns|
  {
    hide Balanced, WellFormedTurn, TakenUp;
    if turns == [] {
      QuietBalanced([]);
    } else {
      var k := |turns| - 1;
      var a, b := TakenInRun(turns[..k]), TakenUp(turns[k].script);
      IdsConcat(a, b);
      NoDupParts(IdsOf(a), IdsOf(b));
      TurnsBalanced(turns[..k]);
      TurnBalanced(turns[k]);
      BalancedConcat(Events(turns[..k]), IdsOf(a), turns[k].events, IdsOf(b));
    }
  }

  lemma {:induction false} TakenPrefixNoDup(turns: seq<Turn>, n: nat)
    requires n <= |turns| && NoDup(IdsOf(TakenInRun(turns)))
    ensures NoDup(IdsOf(TakenInRun(turns[..n])))
    decreases |turns|
  {
    if n == |turns| {
      assert turns[..n] == turns;
    } else {
      var k := |turns| - 1;
      IdsConcat(TakenInRun(turns[..k]), TakenUp(turns[k].script));
      NoDupParts(IdsOf(TakenInRun(turns[..k])), IdsOf(TakenUp(turns[k].script)));
      TakenPrefixNoDup(turns[..k], n);
      assert turns[..k][..n] == turns[..n];
    }
  }

  /** With distinct call ids the pending calls are, at every moment of a run, those started and not yet
      ended, and there are none at the end of any turn. */
  lemma {:induction false} PendingInRun(st: State, first: seq<Message>, script: seq<TurnScript>, turns: seq<Turn>)
    requires st.pending == {} && Chained(first, script, turns) && NoDup(IdsOf(TakenInRun(turns)))
    ensures forall n :: 0 <= n <= |Events(turns)| ==>
      ReduceAll(st, Events(turns)[..n]).pending == Started(Events(turns)[..n]) - EndedIds(Events(turns)[..n])
    ensures forall i :: 0 <= i <= |turns| ==> ReduceAll(st, Events(turns[..i])).pending == {}
  {
    hide Events, Orderly, Started, EndedIds, WellFormedTurn, TakenUp, TakenInRun, ReduceAll, Follows;
    var events := Events(turns);
    TurnsBalanced(turns);
    forall n | 0 <= n <= |events|
      ensures ReduceAll(st, events[..n]).pending == Started(events[..n]) - EndedIds(events[..n])
    {
      OrderlyPrefix(events, n);
      PendingIs(st, events[..n]);
    }
    forall i | 0 <= i <= |turns| ensures ReduceAll(st, Events(turns[..i])).pending == {} {
      TakenPrefixNoDup(turns, i);
      TurnsBalanced(turns[..i]);
      PendingIs(st, Events(turns[..i]));
    }
  }
}
