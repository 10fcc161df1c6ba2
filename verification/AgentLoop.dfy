/** The agent loop: turns of injected messages, one streamed answer and its tool calls. */
module AgentLoop {
  import opened Basics
  import opened AgentTools

  // ----- Messages that were announced

  /** The messages whose end was announced, in order. */
  function Ended(events: seq<Event>): seq<Message> {
    if events == [] then [] else
      var k := |events| - 1;
      Ended(events[..k]) + (if events[k].MessageEnd? then [events[k].message] else [])
  }

  lemma {:induction false} EndedConcat(a: seq<Event>, b: seq<Event>)
    ensures Ended(a + b) == Ended(a) + Ended(b)
    decreases |b|
  {
    if b == [] {
      assert a + b == a;
    } else {
      var k := |b| - 1;
      assert (a + b)[..|a| + k] == a + b[..k] && (a + b)[|a| + k] == b[k];
      EndedConcat(a, b[..k]);
    }
  }

  predicate Silent(events: seq<Event>) {
    forall i :: 0 <= i < |events| ==> !events[i].MessageEnd?
  }

  lemma {:induction false} SilentEnded(events: seq<Event>)
    requires Silent(events)
    ensures Ended(events) == []
    decreases |events|
  {
    if events != [] { SilentEnded(events[..|events| - 1]); }
  }

  lemma {:induction false} AnnouncedEnded(ms: seq<Message>)
    ensures Ended(Announcements(ms)) == ms
    decreases |ms|
  {
    if ms != [] {
      var k := |ms| - 1;
      AnnouncedEnded(ms[..k]);
      EndedConcat(Announcements(ms[..k]), Announce(ms[k]));
      AnnounceEnded(ms[k]);
      assert ms == ms[..k] + [ms[k]];
    }
  }

  lemma {:induction false} AnnounceEnded(m: Message)
    ensures Ended(Announce(m)) == [m]
  {
    assert Announce(m)[..1] == [MessageStart(m)];
    assert Ended([MessageStart(m)]) == [];
  }

  // ----- Tool events

  lemma {:induction false} OpeningSilent(jobs: seq<Job>)
    ensures Silent(Opening(jobs))
    decreases |jobs|
  {
    hide Outcome, Immediate;
    if jobs != [] { OpeningSilent(jobs[..|jobs| - 1]); }
  }

  lemma {:induction false} TaggedMember(tags: seq<nat>, events: seq<Event>, k: nat)
    requires |tags| == |events| && k < |tags|
    ensures events[k] in Of(tags, events, tags[k])
    decreases |tags|
  {
    var n := |tags| - 1;
    if k < n {
      TaggedMember(tags[..n], events[..n], k);
    }
  }

  /** Running tools only report progress and ends. */
  lemma {:induction false} RunningKinds(jobs: seq<Job>, tags: seq<nat>, events: seq<Event>)
    requires Interleaves(jobs, tags, events)
    ensures forall k :: 0 <= k < |events| ==> events[k].ToolUpdate? || events[k].ToolEnd?
  {
    hide Outcome, Immediate, Of;
    forall k | 0 <= k < |events| ensures events[k].ToolUpdate? || events[k].ToolEnd? {
      TaggedMember(tags, events, k);
      assert events[k] in Steps(jobs[tags[k]]);
    }
  }

  lemma {:induction false} GroupEnded(jobs: seq<Job>, events: seq<Event>)
    requires GroupTrace(jobs, events)
    ensures Ended(events) == Messages(Taken(jobs))
  {
    hide Taken, Opening, Interleaves, Messages;
    var taken := Taken(jobs);
    var running, tags :| Interleaves(taken, tags, running)
        && events == Opening(taken) + running + Announcements(Messages(taken));
    RunningKinds(taken, tags, running);
    OpeningSilent(taken);
    SilentEnded(Opening(taken));
    SilentEnded(running);
    AnnouncedEnded(Messages(taken));
    EndedConcat(Opening(taken) + running, Announcements(Messages(taken)));
    EndedConcat(Opening(taken), running);
  }

  function GroupMessages(groups: seq<Group>): seq<Message> {
    if groups == [] then [] else
      GroupMessages(groups[..|groups| - 1]) + Messages(Taken(groups[|groups| - 1].jobs))
  }

  lemma {:induction false} GroupMessagesCons(g: Group, groups: seq<Group>)
    ensures GroupMessages([g] + groups) == Messages(Taken(g.jobs)) + GroupMessages(groups)
    decreases |groups|
  {
    hide Taken, Messages;
    if groups == [] {
      assert [g] + groups == [g] && [g][..0] == [];
    } else {
      var k := |groups| - 1;
      assert ([g] + groups)[..k + 1] == [g] + groups[..k];
      GroupMessagesCons(g, groups[..k]);
      Reassociate(Messages(Taken(g.jobs)), GroupMessages(groups[..k]), Messages(Taken(groups[k].jobs)));
    }
  }

  lemma {:induction false} RunMessages(groups: seq<Group>)
    ensures GroupMessages(GroupsRun(groups)) == GroupsBatch(groups).messages
    decreases |groups|
  {
    hide Taken, Messages, AllTerminate;
    if groups != [] {
      RunMessages(groups[1..]);
      if groups[0].jobs != [] {
        GroupMessagesCons(groups[0], GroupsRun(groups[1..]));
        GroupMessagesCons(groups[0], []);
        assert [groups[0]] + [] == [groups[0]];
      }
    }
  }

  lemma {:induction false} PartsEnded(groups: seq<Group>, parts: seq<seq<Event>>)
    requires GroupTraces(groups, parts)
    ensures Ended(Concat(parts)) == GroupMessages(groups)
    decreases |groups|
  {
    hide Taken, Messages, GroupTrace, Ended;
    if groups == [] {
      SilentEnded([]);
    } else {
      var k := |groups| - 1;
      PartsEnded(groups[..k], parts[..k]);
      GroupEnded(groups[k].jobs, parts[k]);
      EndedConcat(Concat(parts[..k]), parts[k]);
    }
  }

  lemma {:induction false} RunOfEnded(j: Job)
    ensures Ended(RunOf(j)) == [MessageOf(Outcome(j))]
  {
    hide Outcome, Immediate, Ended;
    var run := [ToolStart(j.call.id)] + (if Immediate(j).Some? then [] else Updates(j)) + [EndOf(Outcome(j))];
    assert Silent(run);
    SilentEnded(run);
    EndedConcat(run, Announce(MessageOf(Outcome(j))));
    AnnounceEnded(MessageOf(Outcome(j)));
  }

  lemma {:induction false} SequentialEnded(jobs: seq<Job>)
    ensures Ended(SequentialTrace(jobs)) == Messages(jobs)
    decreases |jobs|
  {
    hide Outcome, RunOf;
    if jobs != [] {
      var k := |jobs| - 1;
      SequentialEnded(jobs[..k]);
      EndedConcat(SequentialTrace(jobs[..k]), RunOf(jobs[k]));
      RunOfEnded(jobs[k]);
      MessagesSnoc(jobs, k);
      assert jobs[..k + 1] == jobs;
    }
  }

  /** A batch announces exactly its result messages, in order, however it is executed. */
  lemma {:induction false} BatchEnded(jobs: seq<Job>, plan: Plan, events: seq<Event>)
    requires BatchTrace(jobs, plan, events)
    ensures Ended(events) == BatchFor(jobs, plan).messages
  {
    hide Ended, Taken, Messages, GroupTrace, GroupsRun, GroupsBatch, SequentialTrace;
    if plan.sequential {
      SequentialEnded(Taken(jobs));
    } else if |GroupsOf(jobs, plan)| <= 1 {
      GroupEnded(Sole(jobs, plan).jobs, events);
    } else {
      var groups := GroupsOf(jobs, plan);
      var parts :| GroupTraces(GroupsRun(groups), parts) && events == Concat(parts);
      PartsEnded(GroupsRun(groups), parts);
      RunMessages(groups);
    }
  }

  // ----- The streamed answer

  datatype StreamEvent = Begin(partial: Message) | Delta(partial: Message) | Finish

  /** How often a stream begins a message before it is over. */
  function Begins(stream: seq<StreamEvent>): nat {
    if stream == [] || stream[0].Finish? then 0 else (if stream[0].Begin? then 1 else 0) + Begins(stream[1..])
  }

  /** One message from its start over updates to its end. */
  predicate OneMessage(events: seq<Event>, final: Message) {
    && |events| >= 2 && events[0].MessageStart? && events[|events| - 1] == MessageEnd(final)
    && forall i :: 0 < i < |events| - 1 ==> events[i].MessageUpdate?
  }

  /** Starts and updates of a message, and its end. */
  predicate Answers(events: seq<Event>, final: Message) {
    && events != [] && events[0].MessageStart? && events[|events| - 1] == MessageEnd(final)
    && forall i :: 0 <= i < |events| - 1 ==> events[i].MessageStart? || events[i].MessageUpdate?
  }

  /** The stream has begun a message. */
  predicate Begun(stream: seq<StreamEvent>) { exists e :: e in stream && e.Begin? }

  /** What is reported while the message is streamed: every partial message as it comes, once one has begun. */
  function Reported(stream: seq<StreamEvent>): seq<Event> {
    if stream == [] then [] else
      var k := |stream| - 1;
      Reported(stream[..k])
      + (match stream[k]
         case Begin(partial) => [MessageStart(partial)]
         case Delta(partial) => if Begun(stream[..k]) then [MessageUpdate(partial)] else []
         case Finish => [])
  }

  /** `part` is the stream up to where it is over. */
  predicate UntilFinish(stream: seq<StreamEvent>, part: seq<StreamEvent>) {
    && part <= stream && (forall i :: 0 <= i < |part| ==> !part[i].Finish?)
    && (|part| < |stream| ==> stream[|part|].Finish?)
  }

  lemma {:induction false} ReportedSnoc(stream: seq<StreamEvent>, k: nat)
    requires k < |stream|
    ensures Reported(stream[..k + 1]) == Reported(stream[..k])
      + (match stream[k]
         case Begin(partial) => [MessageStart(partial)]
         case Delta(partial) => if Begun(stream[..k]) then [MessageUpdate(partial)] else []
         case Finish => [])
    ensures Begun(stream[..k + 1]) <==> Begun(stream[..k]) || stream[k].Begin?
  {
    assert stream[..k + 1][..k] == stream[..k];
    assert stream[..k + 1] == stream[..k] + [stream[k]];
  }

  /** Streams an answer into the context. The context grows by exactly the final message, and one
      message is announced, if and only if the provider begins a message at most once. */
  method StreamAssistantResponse(context: seq<Message>, stream: seq<StreamEvent>, final: Message)
      returns (context': seq<Message>, events: seq<Event>)
    ensures context' == context + [final] <==> Begins(stream) <= 1
    ensures |context'| == |context| + Max(1, Begins(stream))
    ensures OneMessage(events, final) <==> Begins(stream) <= 1
    ensures Answers(events, final) && Ended(events) == [final]
    ensures exists part ::
      && UntilFinish(stream, part)
      && events == Reported(part) + (if Begun(part) then [] else [MessageStart(final)]) + [MessageEnd(final)]
  {
    hide Ended, Reported, Begun;
    context', events := context, [];
    NothingReported();
    var addedPartial := false;
    ghost var n := 0;
    var k := 0;
    while k < |stream| && !stream[k].Finish?
      invariant 0 <= k <= |stream|
      invariant n + Begins(stream[k..]) == Begins(stream)
      invariant forall i :: 0 <= i < k ==> !stream[i].Finish?
      invariant events == Reported(stream[..k]) && (addedPartial <==> Begun(stream[..k]))
      invariant addedPartial <==> n > 0
      invariant |context'| == |context| + n && context'[..|context|] == context
      invariant n == 0 ==> events == []
      invariant n > 0 ==> events != [] && events[0].MessageStart?
      invariant forall i :: 0 <= i < |events| ==> events[i].MessageStart? || events[i].MessageUpdate?
      invariant n <= 1 ==> forall i :: 0 < i < |events| ==> events[i].MessageUpdate?
      invariant n > 1 ==> exists i :: 0 < i < |events| && events[i].MessageStart?
    {
      ghost var before := events;
      assert stream[k..][1..] == stream[k + 1..];
      ReportedSnoc(stream, k);
      var event := stream[k];
      if event.Begin? {
        context' := context' + [event.partial];
        addedPartial := true;
        events := events + [MessageStart(event.partial)];
        if n > 0 { assert events[|before|].MessageStart?; }
        n := n + 1;
      } else if addedPartial {
        context' := context'[|context'| - 1 := event.partial];
        events := events + [MessageUpdate(event.partial)];
        if n > 1 {
          ghost var i :| 0 < i < |before| && before[i].MessageStart?;
          assert events[i] == before[i];
        }
      }
      k := k + 1;
    }
    assert UntilFinish(stream, stream[..k]);
    if addedPartial {
      context' := context'[|context'| - 1 := final];
    } else {
      context' := context' + [final];
      events := events + [MessageStart(final)];
    }
    assert Silent(events);
    SilentEnded(events);
    EndedConcat(events, [MessageEnd(final)]);
    OneEnded(final);
    ghost var before := events;
    events := events + [MessageEnd(final)];
    if n > 1 {
      ghost var i :| 0 < i < |before| && before[i].MessageStart?;
      assert events[i].MessageStart?;
    }
  }

  lemma {:induction false} NothingReported()
    ensures forall stream: seq<StreamEvent> :: stream[..0] == [] && Reported(stream[..0]) == [] && !Begun(stream[..0])
  {
    forall stream: seq<StreamEvent> ensures stream[..0] == [] {}
  }

  lemma {:induction false} OneEnded(m: Message)
    ensures Ended([MessageEnd(m)]) == [m]
  {
    assert [MessageEnd(m)][..0] == [];
  }

  // ----- Turns

  /** Everything the outside does in one turn: the provider's stream and its final message, the jobs
      and plan of its tool calls, a replaced context, the stop hook, and what the queues hand out. */
  datatype TurnScript = TurnScript(
    stream: seq<StreamEvent>, final: Message, jobs: seq<Job>, plan: Plan,
    replacement: Option<seq<Message>>, stop: bool, steering: seq<Message>, followUps: seq<Message>)

  ghost predicate Possible(s: TurnScript) {
    && s.final.Assistant? && |s.jobs| == |s.final.calls|
    && (forall i :: 0 <= i < |s.jobs| ==> s.jobs[i].call == s.final.calls[i])
    && PlanCompletes(s.jobs, s.plan)
  }

  predicate Failed(s: TurnScript) { s.final.Assistant? && (s.final.stop.Error? || s.final.stop.Aborted?) }

  predicate RunsTools(s: TurnScript) { s.final.Assistant? && !Failed(s) && s.final.calls != [] }

  function ResultsOf(s: TurnScript): seq<Message> { if RunsTools(s) then BatchFor(s.jobs, s.plan).messages else [] }

  predicate MoreCalls(s: TurnScript) { RunsTools(s) && !BatchFor(s.jobs, s.plan).terminate }

  /** The messages a turn adds to the transcript. */
  function Added(injected: seq<Message>, s: TurnScript): seq<Message> { injected + [s.final] + ResultsOf(s) }

  /** Partial messages left in the context by a stream that begins more than once. */
  function Stale(s: TurnScript): nat { Max(1, Begins(s.stream)) - 1 }

  /** The context grows by the messages of the turn and the stale ones, so by nothing else exactly when
      the stream begins at most once. */
  ghost predicate ContextGrows(context: seq<Message>, context': seq<Message>, added: seq<Message>, s: TurnScript) {
    |context'| == |context| + |added| + Stale(s) && (Stale(s) == 0 ==> context' == context + added)
  }

  /** Injected messages, one answer, its tool events, and the end of the turn. */
  ghost predicate TurnParts(events: seq<Event>, injected: seq<Message>, s: TurnScript, answer: seq<Event>,
      tools: seq<Event>) {
    && Answers(answer, s.final) && (OneMessage(answer, s.final) <==> Stale(s) == 0) && Ended(answer) == [s.final]
    && (if RunsTools(s) then BatchTrace(s.jobs, s.plan, tools) else tools == [])
    && events == Announcements(injected) + answer + tools + [TurnEnd(s.final, ResultsOf(s))]
  }

  ghost predicate TurnBody(events: seq<Event>, injected: seq<Message>, s: TurnScript) {
    exists answer, tools :: TurnParts(events, injected, s, answer, tools)
  }

  lemma {:induction false} BodyEnded(events: seq<Event>, injected: seq<Message>, s: TurnScript)
    requires TurnBody(events, injected, s)
    ensures Ended(events) == Added(injected, s)
  {
    hide Ended, BatchTrace, BatchFor, OneMessage, Answers, Stale;
    var answer, tools :| TurnParts(events, injected, s, answer, tools);
    if RunsTools(s) { BatchEnded(s.jobs, s.plan, tools); } else { SilentEnded(tools); }
    var end := [TurnEnd(s.final, ResultsOf(s))];
    SilentEnded(end);
    AnnouncedEnded(injected);
    EndedConcat(Announcements(injected) + answer + tools, end);
    EndedConcat(Announcements(injected) + answer, tools);
    EndedConcat(Announcements(injected), answer);
  }

  method Inject(context: seq<Message>, newMessages: seq<Message>, pending: seq<Message>)
      returns (context': seq<Message>, newMessages': seq<Message>, events: seq<Event>)
    ensures context' == context + pending && newMessages' == newMessages + pending && events == Announcements(pending)
  {
    context', newMessages', events := context, newMessages, [];
    for i := 0 to |pending|
      invariant context' == context + pending[..i] && newMessages' == newMessages + pending[..i]
      invariant events == Announcements(pending[..i])
    {
      assert pending[..i + 1] == pending[..i] + [pending[i]];
      events := events + Announce(pending[i]);
      context' := context' + [pending[i]];
      newMessages' := newMessages' + [pending[i]];
    }
    assert pending[..|pending|] == pending;
  }

  /** The body of the inner loop up to and including the end of the turn. */
  method TakeTurn(context: seq<Message>, newMessages: seq<Message>, pending: seq<Message>, s: TurnScript)
      returns (context': seq<Message>, newMessages': seq<Message>, events: seq<Event>)
    requires Possible(s)
    ensures ContextGrows(context, context', Added(pending, s), s) && newMessages' == newMessages + Added(pending, s)
    ensures TurnBody(events, pending, s)
  {
    hide Ended, BatchTrace, BatchFor, OneMessage, Answers, PlanCompletes, Begins;
    var answer: seq<Event>, tools: seq<Event> := [], [];
    var opening: seq<Event>;
    context', newMessages', opening := Inject(context, newMessages, pending);
    context', answer := StreamAssistantResponse(context', s.stream, s.final);
    newMessages' := newMessages' + [s.final];
    var results: seq<Message> := [];
    if RunsTools(s) {
      var batch: Batch;
      tools, batch := ExecuteToolCalls(s.jobs, s.plan);
      results := batch.messages;
      context', newMessages' := context' + results, newMessages' + results;
    }
    assert results == ResultsOf(s);
    assert context + pending + [s.final] + results == context + Added(pending, s);
    assert newMessages + pending + [s.final] + results == newMessages + Added(pending, s);
    events := opening + answer + tools + [TurnEnd(s.final, results)];
    assert TurnParts(events, pending, s, answer, tools);
  }

  // ----- Runs

  datatype Turn = Turn(injected: seq<Message>, script: TurnScript, events: seq<Event>, context: seq<Message>)

  ghost predicate WellFormedTurn(t: Turn) {
    t.events != [] && t.events[0] == TurnStart && TurnBody(t.events[1..], t.injected, t.script)
  }

  function Events(turns: seq<Turn>): seq<Event> {
    if turns == [] then [] else Events(turns[..|turns| - 1]) + turns[|turns| - 1].events
  }

  /** The turn is the last one: the answer failed, a hook stops the run, or there is nothing to do. */
  predicate Final(s: TurnScript) { Failed(s) || s.stop || (!MoreCalls(s) && s.steering == [] && s.followUps == []) }

  /** What is injected into the turn after a turn that is not the last. */
  function Next(s: TurnScript): seq<Message> { if MoreCalls(s) || s.steering != [] then s.steering else s.followUps }

  /** Turn `i` takes up what turn `i - 1` left for it. */
  ghost predicate Follows(script: seq<TurnScript>, turns: seq<Turn>, i: nat)
    requires 0 < i < |turns| <= |script|
  {
    !Final(script[i - 1]) && turns[i].injected == Next(script[i - 1])
  }

  /** The turns follow the script and each takes up exactly what the queues handed out before it. */
  ghost predicate Chained(first: seq<Message>, script: seq<TurnScript>, turns: seq<Turn>) {
    && |turns| <= |script|
    && (forall i :: 0 <= i < |turns| ==> turns[i].script == script[i] && WellFormedTurn(turns[i]))
    && (turns != [] ==> turns[0].injected == first)
    && (forall i :: 0 < i < |turns| ==> Follows(script, turns, i))
  }

  /** At every end of a turn the loop's own context is the initial one and all announced messages. */
  ghost predicate InStep(initial: seq<Message>, turns: seq<Turn>) {
    forall i :: 0 <= i < |turns| ==> turns[i].context == initial + Ended(Events(turns[..i + 1]))
  }

  predicate NeverReplaced(script: seq<TurnScript>) {
    forall i :: 0 <= i < |script| ==> script[i].replacement.None?
  }

  function StaleIn(turns: seq<Turn>): nat {
    if turns == [] then 0 else StaleIn(turns[..|turns| - 1]) + Stale(turns[|turns| - 1].script)
  }

  lemma {:induction false} NothingStale(turns: seq<Turn>)
    ensures StaleIn(turns) == 0 <==> forall i :: 0 <= i < |turns| ==> Begins(turns[i].script.stream) <= 1
    decreases |turns|
  {
    if turns != [] {
      var k := |turns| - 1;
      NothingStale(turns[..k]);
      assert forall i :: 0 <= i < k ==> turns[..k][i] == turns[i];
    }
  }

  /** The context is longer than the initial and the collected messages by the stale ones; without any
      it is those messages, at the end of every turn. */
  ghost predicate Books(initial: seq<Message>, turns: seq<Turn>, newMessages: seq<Message>, context: seq<Message>) {
    && |context| == |initial| + |newMessages| + StaleIn(turns)
    && (StaleIn(turns) == 0 ==> InStep(initial, turns) && context == initial + newMessages)
  }

  ghost predicate LoopState(initial: seq<Message>, first: seq<Message>, script: seq<TurnScript>, turns: seq<Turn>,
      trace: seq<Event>, newMessages: seq<Message>, context: seq<Message>) {
    && Chained(first, script, turns)
    && trace == [AgentStart] + Events(turns)
    && newMessages == Ended(Events(turns))
    && (NeverReplaced(script) ==> Books(initial, turns, newMessages, context))
  }

  lemma {:induction false} TurnEnded(t: Turn)
    requires WellFormedTurn(t)
    ensures Ended(t.events) == Added(t.injected, t.script)
  {
    hide Ended, TurnBody;
    assert t.events == [TurnStart] + t.events[1..];
    BodyEnded(t.events[1..], t.injected, t.script);
    SilentEnded([TurnStart]);
    EndedConcat([TurnStart], t.events[1..]);
  }

  lemma {:induction false} EventsSnoc(turns: seq<Turn>, t: Turn)
    requires WellFormedTurn(t)
    ensures Events(turns + [t]) == Events(turns) + t.events
    ensures Ended(Events(turns + [t])) == Ended(Events(turns)) + Added(t.injected, t.script)
  {
    hide Ended, WellFormedTurn;
    assert (turns + [t])[..|turns|] == turns;
    EndedConcat(Events(turns), t.events);
    TurnEnded(t);
  }

  lemma {:induction false} ChainedSnoc(first: seq<Message>, script: seq<TurnScript>, turns: seq<Turn>, t: Turn)
    requires Chained(first, script, turns) && |turns| < |script| && t.script == script[|turns|] && WellFormedTurn(t)
    requires if turns == [] then t.injected == first
    else !Final(script[|turns| - 1]) && t.injected == Next(script[|turns| - 1])
    ensures Chained(first, script, turns + [t])
  {
    hide WellFormedTurn, Final, Next;
    var all := turns + [t];
    var n := |turns|;
    assert all[n] == t;
    assert forall i :: 0 <= i < n ==> all[i] == turns[i];
    forall i | 0 <= i < |all| ensures all[i].script == script[i] && WellFormedTurn(all[i]) {
      if i == n { assert all[i] == t; }
    }
    forall i | 0 < i < |all| ensures Follows(script, all, i) {
      if i < n { assert Follows(script, turns, i); }
    }
  }

  lemma {:induction false} InStepSnoc(initial: seq<Message>, turns: seq<Turn>, t: Turn)
    requires InStep(initial, turns) && t.context == initial + Ended(Events(turns + [t]))
    ensures InStep(initial, turns + [t])
  {
    hide Ended, Events;
    var all := turns + [t];
    forall i | 0 <= i < |all| ensures all[i].context == initial + Ended(Events(all[..i + 1])) {
      if i < |turns| {
        assert all[..i + 1] == turns[..i + 1];
      } else {
        assert all[..i + 1] == all;
      }
    }
  }

  /** One more turn keeps the books. */
  lemma {:induction false} TurnKeeps(initial: seq<Message>, first: seq<Message>, script: seq<TurnScript>,
      turns: seq<Turn>, trace: seq<Event>, newMessages: seq<Message>, context: seq<Message>, t: Turn)
    requires LoopState(initial, first, script, turns, trace, newMessages, context)
    requires |turns| < |script| && t.script == script[|turns|] && WellFormedTurn(t)
    requires if turns == [] then t.injected == first
    else !Final(script[|turns| - 1]) && t.injected == Next(script[|turns| - 1])
    requires ContextGrows(context, t.context, Added(t.injected, t.script), t.script)
    ensures LoopState(initial, first, script, turns + [t], trace + t.events, newMessages + Added(t.injected, t.script),
      t.context)
  {
    hide Ended, WellFormedTurn, Final, Chained, Added, InStep, Books;
    ChainedSnoc(first, script, turns, t);
    EventsSnoc(turns, t);
    Reassociate([AgentStart], Events(turns), t.events);
    if NeverReplaced(script) { BooksSnoc(initial, turns, newMessages, context, t, Added(t.injected, t.script)); }
  }

  lemma {:induction false} BooksSnoc(initial: seq<Message>, turns: seq<Turn>, newMessages: seq<Message>,
      context: seq<Message>, t: Turn, added: seq<Message>)
    requires Books(initial, turns, newMessages, context) && ContextGrows(context, t.context, added, t.script)
    requires Ended(Events(turns + [t])) == newMessages + added
    ensures Books(initial, turns + [t], newMessages + added, t.context)
  {
    hide Ended, Events, InStep, Stale;
    assert (turns + [t])[..|turns|] == turns;
    if StaleIn(turns + [t]) == 0 {
      Reassociate(initial, newMessages, added);
      InStepSnoc(initial, turns, t);
    }
  }

  lemma {:induction false} AnnouncementsConcat(a: seq<Message>, b: seq<Message>)
    ensures Announcements(a + b) == Announcements(a) + Announcements(b)
    decreases |b|
  {
    if b == [] {
      assert a + b == a;
    } else {
      var k := |b| - 1;
      assert (a + b)[..|a| + k] == a + b[..k];
      AnnouncementsConcat(a, b[..k]);
      Reassociate(Announcements(a), Announcements(b[..k]), Announce(b[k]));
    }
  }

  /** Prompts announced before the loop belong to the first turn. */
  lemma {:induction false} MergePrompts(prompts: seq<Message>, steering: seq<Message>, body: seq<Event>, s: TurnScript)
    requires TurnBody(body, steering, s)
    ensures TurnBody(Announcements(prompts) + body, prompts + steering, s)
  {
    hide Ended, BatchTrace, OneMessage, Answers, Stale, RunsTools, ResultsOf;
    var answer, tools :| TurnParts(body, steering, s, answer, tools);
    AnnouncementsConcat(prompts, steering);
    var a, b := Announcements(prompts), Announcements(steering);
    var end := [TurnEnd(s.final, ResultsOf(s))];
    Reassociate(a, b + answer + tools, end);
    Reassociate(a, b + answer, tools);
    Reassociate(a, b, answer);
    assert TurnParts(a + body, prompts + steering, s, answer, tools);
  }

  /** Where the run stands before turn `|turns|`: between turns, or in the first turn with only the
      prompts announced. */
  ghost predicate Standing(initial: seq<Message>, prompts: seq<Message>, steering: seq<Message>,
      script: seq<TurnScript>, turns: seq<Turn>, trace: seq<Event>, newMessages: seq<Message>, context: seq<Message>) {
    if turns == [] then
      trace == [AgentStart] + ([TurnStart] + Announcements(prompts)) && newMessages == prompts
          && context == initial + prompts
    else LoopState(initial, prompts + steering, script, turns, trace, newMessages, context)
  }

  lemma {:induction false} StandingTurn(initial: seq<Message>, prompts: seq<Message>, steering: seq<Message>,
      script: seq<TurnScript>, turns: seq<Turn>, trace: seq<Event>, newMessages: seq<Message>, context: seq<Message>,
      pending: seq<Message>, body: seq<Event>, context': seq<Message>)
      returns (t: Turn)
    requires Standing(initial, prompts, steering, script, turns, trace, newMessages, context) && |turns| < |script|
    requires var s := script[|turns|];
      TurnBody(body, pending, s) && ContextGrows(context, context', Added(pending, s), s)
    requires if turns == [] then pending == steering
    else !Final(script[|turns| - 1]) && pending == Next(script[|turns| - 1])
    ensures t.script == script[|turns|]
    ensures LoopState(initial, prompts + steering, script, turns + [t],
                      trace + (if turns == [] then [] else [TurnStart]) + body,
                          newMessages + Added(pending, script[|turns|]), context')
  {
    hide Ended, TurnBody, Final, Chained, Books, Stale;
    var s := script[|turns|];
    if turns == [] {
      Reassociate(initial, prompts, Added(steering, s));
      AddedConcat(prompts, steering, s);
      FirstTurn(initial, prompts, steering, script, body, context');
      t := Turn(prompts + steering, s, [TurnStart] + (Announcements(prompts) + body), context');
      assert trace + [] + body == [AgentStart] + t.events;
      assert [] + [t] == [t];
    } else {
      t := Turn(pending, s, [TurnStart] + body, context');
      assert t.events[1..] == body;
      TurnKeeps(initial, prompts + steering, script, turns, trace, newMessages, context, t);
      Reassociate(trace, [TurnStart], body);
    }
  }

  lemma {:induction false} AddedConcat(a: seq<Message>, b: seq<Message>, s: TurnScript)
    ensures Added(a + b, s) == a + Added(b, s)
  {
    hide ResultsOf;
    Reassociate(a, b, [s.final]);
    Reassociate(a, b + [s.final], ResultsOf(s));
  }

  lemma {:induction false} FirstTurn(initial: seq<Message>, prompts: seq<Message>, steering: seq<Message>,
      script: seq<TurnScript>, body: seq<Event>, context: seq<Message>)
    requires script != [] && TurnBody(body, steering, script[0])
    requires ContextGrows(initial, context, Added(prompts + steering, script[0]), script[0])
    ensures var s := script[0]; var first := prompts + steering;
      var t := Turn(first, s, [TurnStart] + (Announcements(prompts) + body), context);
      LoopState(initial, first, script, [t], [AgentStart] + t.events, Added(first, s), t.context)
  {
    hide Ended, TurnBody, Final, Added, Stale;
    var s, first := script[0], prompts + steering;
    var t := Turn(first, s, [TurnStart] + (Announcements(prompts) + body), context);
    assert t.events[1..] == Announcements(prompts) + body;
    MergePrompts(prompts, steering, body, s);
    EmptyState(initial, first, script);
    TurnKeeps(initial, first, script, [], [AgentStart], [], initial, t);
    assert [] + [t] == [t] && [] + Added(first, s) == Added(first, s);
  }

  lemma {:induction false} EmptyState(initial: seq<Message>, first: seq<Message>, script: seq<TurnScript>)
    ensures LoopState(initial, first, script, [], [AgentStart], [], initial)
  {
    assert initial + [] == initial;
  }

  /** Ending the run announces the messages of the whole run and nothing else. */
  lemma {:induction false} Finished(turns: seq<Turn>, newMessages: seq<Message>, tail: seq<Event>)
    requires newMessages == Ended(Events(turns)) && (tail == [] || tail == [AgentEnd(newMessages)])
    ensures Ended([AgentStart] + Events(turns) + tail) == newMessages
  {
    hide Ended, Events;
    SilentEnded([AgentStart]);
    SilentEnded(tail);
    EndedConcat([AgentStart] + Events(turns), tail);
    EndedConcat([AgentStart], Events(turns));
  }

  /** What a whole run guarantees. */
  ghost predicate RunOk(initial: seq<Message>, first: seq<Message>, script: seq<TurnScript>, turns: seq<Turn>,
      trace: seq<Event>, newMessages: seq<Message>, context: seq<Message>, finished: bool) {
    && turns != [] && Chained(first, script, turns)
    && trace == [AgentStart] + Events(turns) + (if finished then [AgentEnd(newMessages)] else [])
    && newMessages == Ended(trace)
    && (NeverReplaced(script) ==> Books(initial, turns, newMessages, context))
    && (finished <==> Final(turns[|turns| - 1].script))
    && (!finished ==> |turns| == |script|)
  }

  lemma {:induction false} ShowRunOk(initial: seq<Message>, first: seq<Message>, script: seq<TurnScript>,
      turns: seq<Turn>, trace: seq<Event>, newMessages: seq<Message>, context: seq<Message>, finished: bool)
    requires turns != [] && LoopState(initial, first, script, turns, trace, newMessages, context)
    requires finished <==> Final(script[|turns| - 1])
    requires !finished ==> |turns| == |script|
    ensures RunOk(initial, first, script, turns, trace + (if finished then [AgentEnd(newMessages)] else []),
      newMessages, context, finished)
  {
    hide Ended, Events, Books, Final, WellFormedTurn, Next;
    Finished(turns, newMessages, if finished then [AgentEnd(newMessages)] else []);
    assert turns[|turns| - 1].script == script[|turns| - 1];
  }

  /** A run from its prompts: the nested loops over turns and follow-ups. The script is what the
      outside does turn by turn; `finished` is false when it ends before the run does, which leaves a
      run cut off between two turns. */
  method RunAgentLoop(initial: seq<Message>, prompts: seq<Message>, steering: seq<Message>, script: seq<TurnScript>)
      returns (trace: seq<Event>, newMessages: seq<Message>, context: seq<Message>, finished: bool)
    requires script != [] && forall i :: 0 <= i < |script| ==> Possible(script[i])
    ensures exists turns :: RunOk(initial, prompts + steering, script, turns, trace, newMessages, context, finished)
  {
    hide LoopState, TurnBody, ContextGrows, Added, Possible, Failed, MoreCalls, RunOk, Announcements;
    newMessages, context := prompts, initial + prompts;
    trace := [AgentStart] + ([TurnStart] + Announcements(prompts));
    ghost var turns: seq<Turn> := [];
    var firstTurn, pending, t := true, steering, 0;
    while true
      invariant t == |turns| < |script| && (firstTurn <==> t == 0)
      invariant if t == 0 then pending == steering else !Final(script[t - 1]) && pending == Next(script[t - 1])
      invariant Standing(initial, prompts, steering, script, turns, trace, newMessages, context)
      decreases |script| - t
    {
      ghost var start := t;
      var hasMoreToolCalls := true;
      while hasMoreToolCalls || |pending| > 0
        invariant start <= t == |turns| <= |script| && (firstTurn <==> t == 0)
        invariant t == start ==>
          hasMoreToolCalls && t < |script|
          && (if t == 0 then pending == steering else !Final(script[t - 1]) && pending == Next(script[t - 1]))
        invariant t > start ==>
          !Failed(script[t - 1]) && !script[t - 1].stop && pending == script[t - 1].steering
          && hasMoreToolCalls == MoreCalls(script[t - 1])
        invariant Standing(initial, prompts, steering, script, turns, trace, newMessages, context)
        decreases |script| - t
      {
        if t == |script| {
          finished := false;
          ShowRunOk(initial, prompts + steering, script, turns, trace, newMessages, context, false);
          assert trace + [] == trace;
          return;
        }
        var s := script[t];
        ghost var before := trace;
        assert before + [] == before;
        if !firstTurn {
          trace := trace + [TurnStart];
        }
        firstTurn := false;
        ghost var context0, new0, pending0 := context, newMessages, pending;
        var body: seq<Event>;
        context, newMessages, body := TakeTurn(context, newMessages, pending, s);
        ghost var turn := StandingTurn(initial, prompts, steering, script, turns, before, new0, context0, pending0,
              body, context);
        turns, trace := turns + [turn], trace + body;
        t := t + 1;
        pending := [];
        if Failed(s) {
          finished := true;
          ShowRunOk(initial, prompts + steering, script, turns, trace, newMessages, context, true);
          trace := trace + [AgentEnd(newMessages)];
          return;
        }
        hasMoreToolCalls := MoreCalls(s);
        if s.replacement.Some? {
          Replaced(initial, prompts + steering, script, turns, trace, newMessages, context, s.replacement.value);
          context := s.replacement.value;
        }
        if s.stop {
          finished := true;
          ShowRunOk(initial, prompts + steering, script, turns, trace, newMessages, context, true);
          trace := trace + [AgentEnd(newMessages)];
          return;
        }
        pending := s.steering;
      }
      var followUps := script[t - 1].followUps;
      if |followUps| > 0 {
        pending := followUps;
        if t == |script| {
          finished := false;
          ShowRunOk(initial, prompts + steering, script, turns, trace, newMessages, context, false);
          assert trace + [] == trace;
          return;
        }
        continue;
      }
      break;
    }
    finished := true;
    ShowRunOk(initial, prompts + steering, script, turns, trace, newMessages, context, true);
    trace := trace + [AgentEnd(newMessages)];
  }

  /** A replaced context leaves the trace and the collected messages alone. */
  lemma {:induction false} Replaced(initial: seq<Message>, first: seq<Message>, script: seq<TurnScript>,
      turns: seq<Turn>, trace: seq<Event>, newMessages: seq<Message>, context: seq<Message>, replacement: seq<Message>)
    requires LoopState(initial, first, script, turns, trace, newMessages, context)
    requires !NeverReplaced(script)
    ensures LoopState(initial, first, script, turns, trace, newMessages, replacement)
  {
  }

  datatype Refusal = NoMessages | LastIsAssistant

  /** Continuing without a new message is refused for an empty context and after an answer. */
  method RunAgentLoopContinue(context: seq<Message>, steering: seq<Message>, script: seq<TurnScript>)
      returns (refused: Option<Refusal>, trace: seq<Event>, newMessages: seq<Message>, finished: bool)
    requires script != [] && forall i :: 0 <= i < |script| ==> Possible(script[i])
    ensures refused == if context == [] then Some(NoMessages)
      else if context[|context| - 1].Assistant? then Some(LastIsAssistant) else None
    ensures refused.Some? ==> trace == [] && newMessages == []
    ensures refused.None? ==> exists turns, after ::
      RunOk(context, steering, script, turns, trace, newMessages, after, finished)
  {
    hide Possible, RunOk;
    refused, trace, newMessages, finished := None, [], [], false;
    if |context| == 0 {
      refused := Some(NoMessages);
    } else if context[|context| - 1].Assistant? {
      refused := Some(LastIsAssistant);
    } else {
      var after: seq<Message>;
      trace, newMessages, after, finished := RunAgentLoop(context, [], steering, script);
      assert [] + steering == steering;
    }
  }
}
