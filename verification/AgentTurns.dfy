/** Which turns a run has and why it goes on or ends, told from what the outside does in each turn. */
module AgentTurns {
  import opened Basics
  import opened AgentTools
  import opened AgentLoop
  import opened AgentState

  /** The provider ended the answer with an error or the run was aborted. */
  predicate Broken(final: Message) { final.Assistant? && (final.stop == Error || final.stop == Aborted) }

  /** Nothing is to be run after the answer: it is broken or has no calls. */
  predicate Idle(final: Message) { Broken(final) || !final.Assistant? || final.calls == [] }

  /** The calls of the answer are run and their batch does not ask to stop. */
  predicate WantsMore(s: TurnScript) { !Idle(s.final) && !BatchFor(s.jobs, s.plan).terminate }

  predicate NoTools(events: seq<Event>) {
    forall e :: e in events ==> !e.ToolStart? && !e.ToolUpdate? && !e.ToolEnd?
  }

  /** The turn is its start, the injected messages and the answer, then the tool events, then its end with
      the results that the tool events announced. */
  ghost predicate TurnIs(t: Turn, head: seq<Event>, tools: seq<Event>) {
    && t.events == head + tools + [TurnEnd(t.script.final, Ended(tools))]
    && NoTools(head) && [TurnStart] + Announcements(t.injected) <= head
    && Ended(head) == t.injected + [t.script.final]
  }

  /** Tools run exactly for an answer that has calls and is not broken, as one batch. */
  ghost predicate ToolsAsAnswered(t: Turn, tools: seq<Event>) {
    if Idle(t.script.final) then tools == [] else BatchTrace(t.script.jobs, t.script.plan, tools)
  }

  lemma {:induction false} AnnouncementsNoTools(ms: seq<Message>)
    ensures NoTools(Announcements(ms))
    decreases |ms|
  {
    if ms != [] { AnnouncementsNoTools(ms[..|ms| - 1]); }
  }

  lemma {:induction false} HeadIs(injected: seq<Message>, answer: seq<Event>, final: Message)
    requires Answers(answer, final) && Ended(answer) == [final]
    ensures var head := [TurnStart] + Announcements(injected) + answer;
      NoTools(head) && [TurnStart] + Announcements(injected) <= head && Ended(head) == injected + [final]
  {
    hide Ended;
    AnnouncementsNoTools(injected);
    AnnouncedEnded(injected);
    SilentEnded([TurnStart]);
    EndedConcat([TurnStart], Announcements(injected));
    EndedConcat([TurnStart] + Announcements(injected), answer);
    forall e | e in answer ensures !e.ToolStart? && !e.ToolUpdate? && !e.ToolEnd? {
      var i :| 0 <= i < |answer| && answer[i] == e;
      assert i == |answer| - 1 || answer[i].MessageStart? || answer[i].MessageUpdate?;
    }
  }

  /** What a turn of a run consists of. */
  lemma {:induction false} TurnTold(t: Turn)
    requires WellFormedTurn(t) && Possible(t.script)
    ensures exists head, tools :: TurnIs(t, head, tools) && ToolsAsAnswered(t, tools)
  {
    hide Ended, BatchTrace, BatchFor, OneMessage, Answers, Stale, PlanCompletes, NoTools;
    var s := t.script;
    var body := t.events[1..];
    var answer, tools :| TurnParts(body, t.injected, s, answer, tools);
    var head := [TurnStart] + Announcements(t.injected) + answer;
    HeadIs(t.injected, answer, s.final);
    if RunsTools(s) { BatchEnded(s.jobs, s.plan, tools); } else { SilentEnded(tools); }
    assert t.events == [TurnStart] + body;
    var end := [TurnEnd(s.final, ResultsOf(s))];
    Reassociate([TurnStart], Announcements(t.injected), answer);
    Reassociate([TurnStart], Announcements(t.injected) + answer, tools);
    Reassociate([TurnStart], Announcements(t.injected) + answer + tools, end);
    assert TurnIs(t, head, tools) && ToolsAsAnswered(t, tools);
  }

  /** After a turn the run goes on: the answer is not broken, the hook does not stop it, and the tools want
      more or a steering or follow-up message was handed out. */
  predicate GoesOn(s: TurnScript) {
    !Broken(s.final) && !s.stop && (WantsMore(s) || s.steering != [] || s.followUps != [])
  }

  /** What the outside left for the next turn: the steering messages, or the follow-ups when there was
      nothing else to do. */
  function LeftBy(s: TurnScript): seq<Message> { if WantsMore(s) || s.steering != [] then s.steering else s.followUps }

  /** A broken answer makes the turn the last of a finished run; without tools to run it ends at once with no
      results; the run goes on after it exactly as `GoesOn` says, cut off only where the outside falls
      silent; and it takes up what was left for it. */
  ghost predicate Account(first: seq<Message>, script: seq<TurnScript>, turns: seq<Turn>, finished: bool, i: nat)
    requires i < |turns| <= |script|
  {
    var s, events := script[i], turns[i].events;
    && turns[i].script == s
    && (exists head, tools :: TurnIs(turns[i], head, tools) && ToolsAsAnswered(turns[i], tools))
    && (Broken(s.final) ==> i == |turns| - 1 && finished)
    && (Idle(s.final) ==> NoTools(events) && events != [] && events[|events| - 1] == TurnEnd(s.final, []))
    && (GoesOn(s) <==> i < |turns| - 1 || !finished)
    && turns[i].injected == if i == 0 then first else LeftBy(script[i - 1])
  }

  /** Every turn of every run is accounted for. */
  lemma {:induction false} RunTold(initial: seq<Message>, first: seq<Message>, script: seq<TurnScript>,
      turns: seq<Turn>, trace: seq<Event>, newMessages: seq<Message>, context: seq<Message>, finished: bool, i: nat)
    requires RunOk(initial, first, script, turns, trace, newMessages, context, finished) && i < |turns|
    requires forall k :: 0 <= k < |script| ==> Possible(script[k])
    ensures |turns| <= |script| && Account(first, script, turns, finished, i)
  {
    hide Ended, BatchTrace, BatchFor, Events, Books, WellFormedTurn, PlanCompletes, TurnIs, NoTools, WantsMore,
      Final, Next, GoesOn, Possible, Idle, ToolsAsAnswered, LeftBy;
    var t := turns[i];
    assert WellFormedTurn(t) && Possible(script[i]);
    TurnTold(t);
    SameDecisions(script[i]);
    if i < |turns| - 1 { assert Follows(script, turns, i + 1); }
    if i > 0 {
      assert Follows(script, turns, i) && Possible(script[i - 1]);
      SameDecisions(script[i - 1]);
    }
    if Idle(script[i].final) { WithoutTools(t); }
  }

  lemma {:induction false} SameDecisions(s: TurnScript)
    requires Possible(s)
    ensures GoesOn(s) <==> !Final(s)
    ensures Broken(s.final) ==> Final(s)
    ensures LeftBy(s) == Next(s)
  {
    hide BatchFor, PlanCompletes;
  }

  lemma {:induction false} WithoutTools(t: Turn)
    requires Idle(t.script.final)
    requires exists head, tools :: TurnIs(t, head, tools) && ToolsAsAnswered(t, tools)
    ensures NoTools(t.events) && t.events != [] && t.events[|t.events| - 1] == TurnEnd(t.script.final, [])
  {
    hide Ended;
    var head, tools :| TurnIs(t, head, tools) && ToolsAsAnswered(t, tools);
    SilentEnded(tools);
  }
}
