/** Running the tool calls of one assistant message: one after the other, all at once, or in groups. */
module AgentTools {
  import opened Basics

  datatype ToolCall = ToolCall(id: string, name: string)

  /** A tool result; `terminate` asks the loop to stop. */
  datatype Result = Result(content: string, terminate: bool)

  datatype StopReason = Stop | ToolUse | Error | Aborted

  datatype Message =
    | User(text: string)
    | Assistant(text: string, calls: seq<ToolCall>, stop: StopReason)
    | ToolResult(callId: string, toolName: string, content: string, isError: bool)

  datatype Event =
    | AgentStart
    | TurnStart
    | MessageStart(message: Message)
    | MessageUpdate(message: Message)
    | MessageEnd(message: Message)
    | ToolStart(id: string)
    | ToolUpdate(id: string, partial: string)
    | ToolEnd(id: string, result: Result, isError: bool)
    | TurnEnd(message: Message, results: seq<Message>)
    | AgentEnd(messages: seq<Message>)

  // ----- One call

  datatype Hook = NoHook | Passes | Blocks(reason: string, terminate: bool, isError: Option<bool>)
  datatype Execution = Returns(result: Result) | Fails(message: string)
  datatype AfterHook = NoPatch | Patch(content: Option<string>, terminate: Option<bool>,
      isError: Option<bool>) | Throws(message: string)

  /** A call together with everything its surroundings will do: whether the tool exists, whether its
      arguments are refused, what the hooks decide, what the tool reports and returns, and whether the
      run is found aborted while the call is prepared or right after it. */
  datatype Job = Job(
    call: ToolCall, found: bool, invalid: Option<string>, hook: Hook, abortedInPrepare: bool,
    updates: seq<string>, execution: Execution, after: AfterHook, abortedAfter: bool)

  datatype Finalized = Finalized(call: ToolCall, result: Result, isError: bool)

  function ErrorResult(message: string): Result { Result(message, false) }

  /** The outcome of a call that is settled without running the tool. */
  function Immediate(j: Job): Option<Finalized> {
    if !j.found then Some(Finalized(j.call, ErrorResult("Tool " + j.call.name + " not found"), true))
    else if j.invalid.Some? then Some(Finalized(j.call, ErrorResult(j.invalid.value), true))
    else if j.abortedInPrepare then Some(Finalized(j.call, ErrorResult("Operation aborted"), true))
    else if j.hook.Blocks? then
      var reason := if j.hook.reason == "" then "Tool execution was blocked" else j.hook.reason;
      Some(Finalized(j.call, Result(reason, j.hook.terminate), if j.hook.isError.Some? then j.hook.isError.value
      else true))
    else None
  }

  /** The outcome of a call whose tool ran. */
  function Executed(j: Job): Finalized {
    var result := match j.execution case Returns(r) => r case Fails(m) => ErrorResult(m);
    var isError := j.execution.Fails?;
    match j.after
    case NoPatch => Finalized(j.call, result, isError)
    case Throws(m) => Finalized(j.call, ErrorResult(m), true)
    case Patch(content, terminate, error) =>
      Finalized(j.call,
                Result(if content.Some? then content.value else result.content,
                       if terminate.Some? then terminate.value else result.terminate),
                if error.Some? then error.value else isError)
  }

  function Outcome(j: Job): Finalized {
    if Immediate(j).Some? then Immediate(j).value else Executed(j)
  }

  function EndOf(f: Finalized): Event { ToolEnd(f.call.id, f.result, f.isError) }

  function MessageOf(f: Finalized): Message { ToolResult(f.call.id, f.call.name, f.result.content, f.isError) }

  function Announce(m: Message): seq<Event> { [MessageStart(m), MessageEnd(m)] }

  function Updates(j: Job): seq<Event> {
    seq(|j.updates|, i requires 0 <= i < |j.updates| => ToolUpdate(j.call.id, j.updates[i]))
  }

  // ----- Batches

  datatype Batch = Batch(messages: seq<Message>, terminate: bool)

  function Messages(jobs: seq<Job>): seq<Message> {
    seq(|jobs|, i requires 0 <= i < |jobs| => MessageOf(Outcome(jobs[i])))
  }

  predicate AllTerminate(jobs: seq<Job>) {
    jobs != [] && forall i :: 0 <= i < |jobs| ==> Outcome(jobs[i]).result.terminate
  }

  function BatchOf(jobs: seq<Job>): Batch { Batch(Messages(jobs), AllTerminate(jobs)) }

  /** The calls that are taken up before an abort is noticed. */
  function Taken(jobs: seq<Job>): seq<Job> {
    if jobs == [] then [] else if jobs[0].abortedAfter then [jobs[0]] else [jobs[0]] + Taken(jobs[1..])
  }

  predicate Undisturbed(jobs: seq<Job>) {
    forall i :: 0 <= i < |jobs| ==> !jobs[i].abortedAfter
  }

  lemma {:induction false} TakenAll(jobs: seq<Job>)
    requires Undisturbed(jobs)
    ensures Taken(jobs) == jobs
  {
    if jobs != [] {
      TakenAll(jobs[1..]);
    }
  }

  lemma {:induction false} TakenPrefix(jobs: seq<Job>, k: nat)
    requires k < |jobs| && jobs[k].abortedAfter && forall i :: 0 <= i < k ==> !jobs[i].abortedAfter
    ensures Taken(jobs) == jobs[..k + 1]
  {
    if k == 0 {
      assert jobs[..1] == [jobs[0]];
    } else {
      TakenPrefix(jobs[1..], k - 1);
      assert [jobs[0]] + jobs[1..][..k] == jobs[..k + 1];
    }
  }

  // ----- Sequential execution

  function RunOf(j: Job): seq<Event> {
    [ToolStart(j.call.id)] + (if Immediate(j).Some? then []
    else Updates(j)) + [EndOf(Outcome(j))] + Announce(MessageOf(Outcome(j)))
  }

  function SequentialTrace(jobs: seq<Job>): seq<Event> {
    if jobs == [] then [] else SequentialTrace(jobs[..|jobs| - 1]) + RunOf(jobs[|jobs| - 1])
  }

  lemma {:induction false} MessagesSnoc(jobs: seq<Job>, k: nat)
    requires k < |jobs|
    ensures Messages(jobs[..k + 1]) == Messages(jobs[..k]) + [MessageOf(Outcome(jobs[k]))]
  {
  }

  /** One call after the other; stops after the call during which the run was aborted. */
  method ExecuteSequential(jobs: seq<Job>) returns (events: seq<Event>, batch: Batch)
    ensures events == SequentialTrace(Taken(jobs)) && batch == BatchOf(Taken(jobs))
  {
    hide Outcome, Immediate, RunOf;
    events := [];
    var finalizedCalls: seq<Finalized>, messages := [], [];
    var k := 0;
    while k < |jobs|
      invariant 0 <= k <= |jobs| && forall i :: 0 <= i < k ==> !jobs[i].abortedAfter
      invariant events == SequentialTrace(jobs[..k]) && messages == Messages(jobs[..k])
      invariant |finalizedCalls| == k && forall i :: 0 <= i < k ==> finalizedCalls[i] == Outcome(jobs[i])
    {
      assert jobs[..k + 1][..k] == jobs[..k];
      MessagesSnoc(jobs, k);
      var run, finalized := RunOne(jobs[k]);
      events := events + run;
      finalizedCalls := finalizedCalls + [finalized];
      messages := messages + [MessageOf(finalized)];
      k := k + 1;
      if jobs[k - 1].abortedAfter {
        TakenPrefix(jobs, k - 1);
        TerminateAgrees(jobs[..k], finalizedCalls);
        return events, Batch(messages, ShouldTerminate(finalizedCalls));
      }
    }
    assert jobs[..|jobs|] == jobs;
    TakenAll(jobs);
    TerminateAgrees(jobs, finalizedCalls);
    batch := Batch(messages, ShouldTerminate(finalizedCalls));
  }

  lemma {:induction false} TerminateAgrees(jobs: seq<Job>, fs: seq<Finalized>)
    requires |fs| == |jobs| && forall i :: 0 <= i < |jobs| ==> fs[i] == Outcome(jobs[i])
    ensures ShouldTerminate(fs) == AllTerminate(jobs)
  {
    hide Outcome;
  }

  predicate ShouldTerminate(finalizedCalls: seq<Finalized>) {
    |finalizedCalls| > 0 && forall i :: 0 <= i < |finalizedCalls| ==> finalizedCalls[i].result.terminate
  }

  method RunOne(j: Job) returns (events: seq<Event>, finalized: Finalized)
    ensures events == RunOf(j) && finalized == Outcome(j)
  {
    events := [ToolStart(j.call.id)];
    var preparation := Immediate(j);
    if preparation.Some? {
      finalized := preparation.value;
    } else {
      finalized := Executed(j);
      events := events + Updates(j);
    }
    events := events + [EndOf(finalized)];
    events := events + Announce(MessageOf(finalized));
  }

  // ----- Parallel execution

  /** What the first pass over the calls emits: every start, and the ends of calls settled at once. */
  function Opening(jobs: seq<Job>): seq<Event> {
    if jobs == [] then [] else
      var k := |jobs| - 1;
      Opening(jobs[..k]) + ([ToolStart(jobs[k].call.id)] + (if Immediate(jobs[k]).Some? then [EndOf(Outcome(jobs[k]))]
      else []))
  }

  /** What a running tool emits, step by step. */
  function Steps(j: Job): seq<Event> { Updates(j) + [EndOf(Outcome(j))] }

  /** How often a schedule lets call `i` take a step. */
  function Turns(schedule: seq<nat>, i: nat): nat { multiset(schedule)[i] }

  /** Every tool that is started is given enough steps to finish; further steps are not used. */
  predicate Completes(jobs: seq<Job>, schedule: seq<nat>) {
    forall i :: 0 <= i < |jobs| && Immediate(jobs[i]).None? ==> Turns(schedule, i) >= |Steps(jobs[i])|
  }

  /** The events of call `i` among tagged events. */
  function Of(tags: seq<nat>, events: seq<Event>, i: nat): seq<Event>
    requires |tags| == |events|
  {
    if tags == [] then [] else
      var k := |tags| - 1;
      Of(tags[..k], events[..k], i) + (if tags[k] == i then [events[k]] else [])
  }

  /** `events` interleaves the steps of the running tools, each complete and in its own order. */
  ghost predicate Interleaves(jobs: seq<Job>, tags: seq<nat>, events: seq<Event>) {
    && |tags| == |events|
    && (forall k :: 0 <= k < |tags| ==> tags[k] < |jobs| && Immediate(jobs[tags[k]]).None?)
    && (forall i :: 0 <= i < |jobs| && Immediate(jobs[i]).None? ==> Of(tags, events, i) == Steps(jobs[i]))
  }

  function Announcements(ms: seq<Message>): seq<Event> {
    if ms == [] then [] else Announcements(ms[..|ms| - 1]) + Announce(ms[|ms| - 1])
  }

  /** First pass: announce and prepare every call; calls settled at once end here. */
  method PrepareAll(jobs: seq<Job>) returns (events: seq<Event>, taken: nat)
    ensures taken <= |jobs| && jobs[..taken] == Taken(jobs) && events == Opening(Taken(jobs))
  {
    hide Outcome, Immediate;
    events, taken := [], 0;
    while taken < |jobs|
      invariant 0 <= taken <= |jobs| && forall i :: 0 <= i < taken ==> !jobs[i].abortedAfter
      invariant events == Opening(jobs[..taken])
    {
      assert jobs[..taken + 1][..taken] == jobs[..taken];
      if jobs[taken].abortedAfter { TakenPrefix(jobs, taken); }
      var j := jobs[taken];
      var own := [ToolStart(j.call.id)];
      if Immediate(j).Some? {
        own := own + [EndOf(Outcome(j))];
      }
      assert events + own == Opening(jobs[..taken + 1]);
      events := events + own;
      taken := taken + 1;
      if j.abortedAfter {
        return;
      }
    }
    assert jobs[..|jobs|] == jobs;
    TakenAll(jobs);
  }

  lemma {:induction false} OfSnoc(tags: seq<nat>, events: seq<Event>, t: nat, e: Event, i: nat)
    requires |tags| == |events|
    ensures Of(tags + [t], events + [e], i) == Of(tags, events, i) + (if t == i then [e] else [])
  {
    assert (tags + [t])[..|tags|] == tags && (events + [e])[..|events|] == events;
  }

  lemma {:induction false} TurnsSnoc(schedule: seq<nat>, k: nat, i: nat)
    requires k < |schedule|
    ensures Turns(schedule[..k + 1], i) == Turns(schedule[..k], i) + (if schedule[k] == i then 1 else 0)
  {
    assert schedule[..k + 1] == schedule[..k] + [schedule[k]];
  }

  /** How far call `i` is after some steps of the schedule. */
  ghost predicate Stands(jobs: seq<Job>, progress: seq<nat>, turns: seq<nat>, tags: seq<nat>, events: seq<Event>) {
    && |progress| == |jobs| && |tags| == |events|
    && (forall i :: 0 <= i < |jobs| ==>
         progress[i] == if Immediate(jobs[i]).Some? then 0 else Min(Turns(turns, i), |Steps(jobs[i])|))
    && (forall k :: 0 <= k < |tags| ==> tags[k] < |jobs| && Immediate(jobs[tags[k]]).None?)
    && (forall i :: 0 <= i < |jobs| ==>
         progress[i] <= |Steps(jobs[i])| && Of(tags, events, i) == Steps(jobs[i])[..progress[i]])
  }

  lemma {:induction false} Advance(jobs: seq<Job>, progress: seq<nat>, schedule: seq<nat>, k: nat, tags: seq<nat>,
      events: seq<Event>)
    requires k < |schedule| && Stands(jobs, progress, schedule[..k], tags, events)
    ensures var i := schedule[k];
      if i < |jobs| && Immediate(jobs[i]).None? && progress[i] < |Steps(jobs[i])|
      then Stands(jobs, progress[i := progress[i] + 1], schedule[..k + 1], tags + [i],
          events + [Steps(jobs[i])[progress[i]]])
      else Stands(jobs, progress, schedule[..k + 1], tags, events)
  {
    hide Of, Steps, Immediate;
    var p := schedule[k];
    forall i: nat { TurnsSnoc(schedule, k, i); }
    if p < |jobs| && Immediate(jobs[p]).None? && progress[p] < |Steps(jobs[p])| {
      var e := Steps(jobs[p])[progress[p]];
      forall i | 0 <= i < |jobs|
        ensures Of(tags + [p], events + [e], i) == Steps(jobs[i])[..progress[p := progress[p] + 1][i]]
      {
        OfSnoc(tags, events, p, e, i);
        if i == p {
          assert Steps(jobs[p])[..progress[p] + 1] == Steps(jobs[p])[..progress[p]] + [e];
        }
      }
    }
  }

  /** Second pass: the tools run concurrently and are stepped as the schedule says. */
  method RunAll(jobs: seq<Job>, schedule: seq<nat>)
      returns (events: seq<Event>, finished: seq<Finalized>, ghost tags: seq<nat>)
    requires Completes(jobs, schedule)
    ensures Interleaves(jobs, tags, events)
    ensures |finished| == |jobs| && forall i :: 0 <= i < |jobs| ==> finished[i] == Outcome(jobs[i])
  {
    hide Of, Outcome, Immediate, Steps, Turns;
    events, tags := [], [];
    var progress: seq<nat> := seq(|jobs|, _ => 0);
    var slots := seq(|jobs|, i requires 0 <= i < |jobs| => Immediate(jobs[i]));
    StandsAtStart(jobs, progress);
    for k := 0 to |schedule|
      invariant Stands(jobs, progress, schedule[..k], tags, events)
      invariant |slots| == |jobs|
      invariant forall i :: 0 <= i < |jobs| ==>
        slots[i] == if Immediate(jobs[i]).None? && progress[i] == |Steps(jobs[i])| then Some(Outcome(jobs[i]))
        else Immediate(jobs[i])
    {
      Advance(jobs, progress, schedule, k, tags, events);
      var p := schedule[k];
      if p < |jobs| && Immediate(jobs[p]).None? && progress[p] < |Steps(jobs[p])| {
        events := events + [Steps(jobs[p])[progress[p]]];
        tags := tags + [p];
        progress := progress[p := progress[p] + 1];
        if progress[p] == |Steps(jobs[p])| {
          slots := slots[p := Some(Outcome(jobs[p]))];
        }
      }
    }
    assert schedule[..|schedule|] == schedule;
    AllSettled(jobs, progress, schedule, tags, events, slots);
    finished := seq(|slots|, i requires 0 <= i < |slots| => if slots[i].Some? then slots[i].value
    else Executed(jobs[i]));
  }

  lemma {:induction false} StandsAtStart(jobs: seq<Job>, progress: seq<nat>)
    requires |progress| == |jobs| && forall i :: 0 <= i < |jobs| ==> progress[i] == 0
    ensures Stands(jobs, progress, [], [], []) && forall i :: 0 <= i < |jobs| ==> |Steps(jobs[i])| > 0
  {
  }

  lemma {:induction false} AllSettled(jobs: seq<Job>, progress: seq<nat>, schedule: seq<nat>, tags: seq<nat>,
      events: seq<Event>, slots: seq<Option<Finalized>>)
    requires Completes(jobs, schedule) && Stands(jobs, progress, schedule, tags, events) && |slots| == |jobs|
    requires forall i :: 0 <= i < |jobs| ==>
      slots[i] == if Immediate(jobs[i]).None? && progress[i] == |Steps(jobs[i])| then Some(Outcome(jobs[i]))
      else Immediate(jobs[i])
    ensures Interleaves(jobs, tags, events)
    ensures forall i :: 0 <= i < |jobs| ==> slots[i] == Some(Outcome(jobs[i]))
  {
    hide Of, Steps, Turns;
    forall i | 0 <= i < |jobs| && Immediate(jobs[i]).None?
      ensures progress[i] == |Steps(jobs[i])| && Steps(jobs[i])[..progress[i]] == Steps(jobs[i])
    {
    }
  }

  /** All calls at once. The results come out in the order of the calls, whatever the schedule. */
  method ExecuteParallel(jobs: seq<Job>, schedule: seq<nat>) returns (events: seq<Event>, batch: Batch)
    requires Completes(jobs, schedule)
    ensures batch == BatchOf(Taken(jobs)) && GroupTrace(jobs, events)
  {
    hide Outcome, Immediate, Steps, Turns, Opening, Interleaves;
    var opening, n := PrepareAll(jobs);
    var taken := jobs[..n];
    assert Completes(taken, schedule) by { assert forall i :: 0 <= i < n ==> taken[i] == jobs[i]; }
    var steps: seq<Event>;
    var finished: seq<Finalized>;
    ghost var tags;
    steps, finished, tags := RunAll(taken, schedule);
    events := opening + steps;
    var messages := [];
    for i := 0 to n
      invariant messages == Messages(taken[..i]) && events == opening + steps + Announcements(messages)
    {
      MessagesSnoc(taken, i);
      var m := MessageOf(finished[i]);
      assert (messages + [m])[..|messages|] == messages;
      assert opening + steps + Announcements(messages) + Announce(m)
          == opening + steps + (Announcements(messages) + Announce(m));
      messages := messages + [m];
      events := events + Announce(m);
    }
    assert taken[..n] == taken;
    batch := Batch(messages, ShouldTerminate(finished));
    ShowGroupTrace(jobs, events, steps, tags);
  }

  // ----- Groups

  /** A group of calls, how its tools interleave, and whether the run is aborted once it is done. */
  datatype Group = Group(jobs: seq<Job>, schedule: seq<nat>, abortedAfter: bool)

  /** The batch the groups produce one after the other. */
  function GroupsBatch(groups: seq<Group>): Batch {
    if groups == [] then Batch([], false)
    else if groups[0].jobs == [] then GroupsBatch(groups[1..])
    else
      var first := BatchOf(Taken(groups[0].jobs));
      if first.terminate || groups[0].abortedAfter then Batch(first.messages, true)
      else
        var rest := GroupsBatch(groups[1..]);
        Batch(first.messages + rest.messages, rest.terminate)
  }

  /** The groups that are run. */
  function GroupsRun(groups: seq<Group>): seq<Group> {
    if groups == [] then []
    else if groups[0].jobs == [] then GroupsRun(groups[1..])
    else if AllTerminate(Taken(groups[0].jobs)) || groups[0].abortedAfter then [groups[0]]
    else [groups[0]] + GroupsRun(groups[1..])
  }

  /** The events of a group: all starts and preparations, then the running tools, then all results. */
  ghost predicate GroupTrace(jobs: seq<Job>, events: seq<Event>) {
    exists running, tags ::
      Interleaves(Taken(jobs), tags, running)
      && events == Opening(Taken(jobs)) + running + Announcements(Messages(Taken(jobs)))
  }

  function Concat(parts: seq<seq<Event>>): seq<Event> {
    if parts == [] then [] else Concat(parts[..|parts| - 1]) + parts[|parts| - 1]
  }

  ghost predicate GroupTraces(groups: seq<Group>, parts: seq<seq<Event>>) {
    |parts| == |groups| && forall i :: 0 <= i < |groups| ==> GroupTrace(groups[i].jobs, parts[i])
  }

  ghost predicate RanSoFar(groups: seq<Group>, k: nat, messages: seq<Message>, run: seq<Group>)
    requires k <= |groups|
  {
    var rest := GroupsBatch(groups[k..]);
    && GroupsBatch(groups) == Batch(messages + rest.messages, rest.terminate)
    && GroupsRun(groups) == run + GroupsRun(groups[k..])
  }

  lemma {:induction false} NextBatch(groups: seq<Group>)
    requires groups != []
    ensures var g, first, rest := groups[0], BatchOf(Taken(groups[0].jobs)), GroupsBatch(groups[1..]);
      GroupsBatch(groups) ==
        if g.jobs == [] then rest
        else if first.terminate || g.abortedAfter then Batch(first.messages, true)
        else Batch(first.messages + rest.messages, rest.terminate)
    ensures GroupsRun(groups) ==
        if groups[0].jobs == [] then GroupsRun(groups[1..])
        else if BatchOf(Taken(groups[0].jobs)).terminate || groups[0].abortedAfter then [groups[0]]
        else [groups[0]] + GroupsRun(groups[1..])
  {
    hide Taken, Outcome, Messages;
  }

  lemma {:induction false} RunNext(groups: seq<Group>, k: nat, messages: seq<Message>, run: seq<Group>)
    requires k < |groups| && RanSoFar(groups, k, messages, run)
    ensures var g := groups[k]; var first := BatchOf(Taken(g.jobs));
      if g.jobs == [] then RanSoFar(groups, k + 1, messages, run)
      else if first.terminate || g.abortedAfter then
        GroupsBatch(groups) == Batch(messages + first.messages, true) && GroupsRun(groups) == run + [g]
      else RanSoFar(groups, k + 1, messages + first.messages, run + [g])
  {
    hide Taken, BatchOf, GroupsBatch, GroupsRun;
    var later := groups[k..];
    var first := BatchOf(Taken(groups[k].jobs));
    NextBatch(later);
    assert later[1..] == groups[k + 1..];
    Reassociate(messages, first.messages, GroupsBatch(groups[k + 1..]).messages);
    Reassociate(run, [groups[k]], GroupsRun(groups[k + 1..]));
  }

  lemma {:induction false} PartsSnoc(run: seq<Group>, parts: seq<seq<Event>>, g: Group, own: seq<Event>)
    requires GroupTraces(run, parts) && GroupTrace(g.jobs, own)
    ensures GroupTraces(run + [g], parts + [own]) && Concat(parts + [own]) == Concat(parts) + own
  {
    hide GroupTrace;
    assert (parts + [own])[..|parts|] == parts;
  }

  predicate AllComplete(groups: seq<Group>) {
    forall i :: 0 <= i < |groups| ==> Completes(groups[i].jobs, groups[i].schedule)
  }

  /** Group after group; no call of a later group starts before an earlier group is through. */
  method ExecuteGroups(groups: seq<Group>) returns (events: seq<Event>, batch: Batch)
    requires AllComplete(groups)
    ensures batch == GroupsBatch(groups) && exists parts ::
      GroupTraces(GroupsRun(groups), parts) && events == Concat(parts)
  {
    hide BatchOf, Taken, GroupTrace, Interleaves, Opening, Completes, Concat;
    ghost var parts: seq<seq<Event>> := [];
    events := [];
    var messages: seq<Message> := [];
    ghost var run: seq<Group> := [];
    RunStart(groups);
    for k := 0 to |groups|
      invariant RanSoFar(groups, k, messages, run)
      invariant GroupTraces(run, parts) && events == Concat(parts)
    {
      var group := groups[k];
      RunNext(groups, k, messages, run);
      if group.jobs != [] {
        var own, first := ExecuteParallel(group.jobs, group.schedule);
        PartsSnoc(run, parts, group, own);
        events, parts, run := events + own, parts + [own], run + [group];
        messages := messages + first.messages;
        if first.terminate || group.abortedAfter {
          return events, Batch(messages, true);
        }
      }
    }
    assert groups[|groups|..] == [];
    batch := Batch(messages, false);
  }

  lemma {:induction false} RunStart(groups: seq<Group>)
    ensures RanSoFar(groups, 0, [], []) && Concat([]) == []
  {
    assert groups[0..] == groups;
    var rest := GroupsBatch(groups);
    assert [] + rest.messages == rest.messages && [] + GroupsRun(groups) == GroupsRun(groups);
  }

  lemma {:induction false} ShowGroupTrace(jobs: seq<Job>, events: seq<Event>, running: seq<Event>, tags: seq<nat>)
    requires Interleaves(Taken(jobs), tags, running)
    requires events == Opening(Taken(jobs)) + running + Announcements(Messages(Taken(jobs)))
    ensures GroupTrace(jobs, events)
  {
  }

  // ----- The choice between them

  /** What the configuration and the environment decide for one batch. */
  datatype Plan = Plan(sequential: bool, schedule: seq<nat>, partition: Option<seq<Group>>)

  function GroupsOf(jobs: seq<Job>, plan: Plan): seq<Group> {
    if |jobs| > 1 && plan.partition.Some? then plan.partition.value else [Group(jobs, plan.schedule, false)]
  }

  /** A single group, or none, is run as one parallel batch. */
  function Sole(jobs: seq<Job>, plan: Plan): Group {
    var groups := GroupsOf(jobs, plan);
    if groups == [] then Group(jobs, plan.schedule, false) else groups[0]
  }

  ghost predicate PlanCompletes(jobs: seq<Job>, plan: Plan) {
    AllComplete(GroupsOf(jobs, plan)) && Completes(jobs, plan.schedule)
  }

  function BatchFor(jobs: seq<Job>, plan: Plan): Batch {
    if plan.sequential then BatchOf(Taken(jobs))
    else if |GroupsOf(jobs, plan)| <= 1 then BatchOf(Taken(Sole(jobs, plan).jobs))
    else GroupsBatch(GroupsOf(jobs, plan))
  }

  /** The events of a batch are those of sequential execution or of groups in order. */
  ghost predicate BatchTrace(jobs: seq<Job>, plan: Plan, events: seq<Event>) {
    if plan.sequential then events == SequentialTrace(Taken(jobs))
    else if |GroupsOf(jobs, plan)| <= 1 then GroupTrace(Sole(jobs, plan).jobs, events)
    else exists parts :: GroupTraces(GroupsRun(GroupsOf(jobs, plan)), parts) && events == Concat(parts)
  }

  method ExecuteToolCalls(jobs: seq<Job>, plan: Plan) returns (events: seq<Event>, batch: Batch)
    requires PlanCompletes(jobs, plan)
    ensures batch == BatchFor(jobs, plan) && BatchTrace(jobs, plan, events)
  {
    hide BatchOf, Taken, GroupsBatch, GroupsRun, Interleaves, Opening;
    if plan.sequential {
      events, batch := ExecuteSequential(jobs);
      return;
    }
    var groups := GroupsOf(jobs, plan);
    if |groups| <= 1 {
      var sole := Sole(jobs, plan);
      events, batch := ExecuteParallel(sole.jobs, sole.schedule);
    } else {
      events, batch := ExecuteGroups(groups);
    }
  }

  // ----- Parallel and grouped execution against sequential execution

  function Flatten(groups: seq<Group>): seq<Job> {
    if groups == [] then [] else groups[0].jobs + Flatten(groups[1..])
  }

  /** Nothing aborts. */
  predicate Calm(groups: seq<Group>) {
    forall i :: 0 <= i < |groups| ==> Undisturbed(groups[i].jobs) && !groups[i].abortedAfter
  }

  /** Some group that another one follows or precedes asks to stop as a whole. */
  predicate StopsEarly(groups: seq<Group>) {
    Stopping(groups) && Several(groups)
  }

  /** Some group asks to stop as a whole. */
  predicate Stopping(groups: seq<Group>) { exists i :: 0 <= i < |groups| && AllTerminate(groups[i].jobs) }

  /** More than one group has calls. */
  predicate Several(groups: seq<Group>) {
    exists i, j :: 0 <= i < j < |groups| && groups[i].jobs != [] && groups[j].jobs != []
  }

  lemma {:induction false} MessagesConcat(a: seq<Job>, b: seq<Job>)
    ensures Messages(a + b) == Messages(a) + Messages(b)
  {
    hide Outcome;
  }

  lemma {:induction false} TerminateConcat(a: seq<Job>, b: seq<Job>)
    requires a != [] && b != []
    ensures AllTerminate(a + b) <==> AllTerminate(a) && AllTerminate(b)
  {
    hide Outcome;
    var c := a + b;
    assert forall i :: 0 <= i < |a| ==> c[i] == a[i];
    assert forall i :: 0 <= i < |b| ==> c[|a| + i] == b[i];
  }

  lemma {:induction false} FlattenEmpty(groups: seq<Group>)
    ensures Flatten(groups) == [] <==> forall i :: 0 <= i < |groups| ==> groups[i].jobs == []
  {
    if groups != [] {
      FlattenEmpty(groups[1..]);
    }
  }

  lemma {:induction false} StoppingHead(groups: seq<Group>)
    requires groups != []
    ensures Stopping(groups) <==> AllTerminate(groups[0].jobs) || Stopping(groups[1..])
  {
    hide AllTerminate;
    var rest := groups[1..];
    if Stopping(rest) {
      var i :| 0 <= i < |rest| && AllTerminate(rest[i].jobs);
      assert groups[i + 1] == rest[i];
    }
    if exists i :: 0 < i < |groups| && AllTerminate(groups[i].jobs) {
      var i :| 0 < i < |groups| && AllTerminate(groups[i].jobs);
      assert rest[i - 1] == groups[i];
    }
  }

  lemma {:induction false} SeveralHead(groups: seq<Group>)
    requires groups != []
    ensures Several(groups) <==> Several(groups[1..]) || (groups[0].jobs != [] && Flatten(groups[1..]) != [])
  {
    hide Flatten;
    var rest := groups[1..];
    FlattenEmpty(rest);
    if Several(groups) {
      var i, j :| 0 <= i < j < |groups| && groups[i].jobs != [] && groups[j].jobs != [];
      assert rest[j - 1] == groups[j];
      if i > 0 { assert rest[i - 1] == groups[i]; }
    }
    if Several(rest) {
      var i, j :| 0 <= i < j < |rest| && rest[i].jobs != [] && rest[j].jobs != [];
      assert groups[i + 1] == rest[i] && groups[j + 1] == rest[j];
    }
    if Flatten(rest) != [] {
      var j :| 0 <= j < |rest| && rest[j].jobs != [];
      assert groups[j + 1] == rest[j];
    }
  }

  lemma {:induction false} StoppingHasJobs(groups: seq<Group>)
    requires Stopping(groups)
    ensures Flatten(groups) != []
  {
    hide Flatten, Outcome;
    FlattenEmpty(groups);
  }

  /** Grouped execution asks to stop exactly when some group asks to stop as a whole. */
  lemma {:induction false} GroupsTerminate(groups: seq<Group>)
    requires Calm(groups)
    ensures GroupsBatch(groups).terminate <==> Stopping(groups)
  {
    hide Outcome, Stopping;
    if groups == [] {
      NothingStops();
    } else {
      GroupsTerminate(groups[1..]);
      TakenAll(groups[0].jobs);
      StoppingHead(groups);
    }
  }

  lemma {:induction false} StopsEarlyHead(groups: seq<Group>)
    requires groups != []
    ensures groups[0].jobs == [] ==> (StopsEarly(groups) <==> StopsEarly(groups[1..]))
    ensures groups[0].jobs != [] && AllTerminate(groups[0].jobs) ==>
      (StopsEarly(groups) <==> Flatten(groups[1..]) != [])
    ensures groups[0].jobs != [] && !AllTerminate(groups[0].jobs) ==> (StopsEarly(groups) <==> Stopping(groups[1..]))
  {
    hide Outcome, Stopping, Several, Flatten;
    var rest := groups[1..];
    StoppingHead(groups);
    SeveralHead(groups);
    if Stopping(rest) { StoppingHasJobs(rest); }
    if Several(rest) { SeveralHasJobs(rest); }
  }

  lemma {:induction false} SeveralHasJobs(groups: seq<Group>)
    requires Several(groups)
    ensures Flatten(groups) != []
  {
    hide Flatten;
    FlattenEmpty(groups);
  }

  /** When nothing aborts, running the calls group by group gives the messages and the decision to go
      on that running them one after the other gives, if and only if no group among several asks to
      stop as a whole. The schedules do not matter. */
  lemma {:induction false} GroupsAgree(groups: seq<Group>)
    requires Calm(groups)
    ensures GroupsBatch(groups) == BatchOf(Flatten(groups)) <==> !StopsEarly(groups)
  {
    hide Outcome, StopsEarly;
    if groups == [] {
      NothingStops();
    } else {
      var h, rest := groups[0].jobs, groups[1..];
      var r := Flatten(rest);
      GroupsAgree(rest);
      TakenAll(h);
      StopsEarlyHead(groups);
      if h == [] {
        assert h + r == r;
      } else {
        MessagesConcat(h, r);
        if r == [] { assert h + r == h; } else { TerminateConcat(h, r); }
        if !AllTerminate(h) {
          GroupsTerminate(rest);
          AgreeAfterHead(h, rest);
        }
      }
    }
  }

  lemma {:induction false} NothingStops()
    ensures !StopsEarly([]) && !Stopping([])
  {
  }

  lemma {:induction false} AgreeAfterHead(h: seq<Job>, rest: seq<Group>)
    requires Calm(rest) && h != [] && !AllTerminate(h)
    requires GroupsBatch(rest) == BatchOf(Flatten(rest)) <==> !StopsEarly(rest)
    requires GroupsBatch(rest).terminate <==> Stopping(rest)
    ensures
      && Messages(h) + GroupsBatch(rest).messages == Messages(h) + Messages(Flatten(rest))
      && !GroupsBatch(rest).terminate
      <==> !Stopping(rest)
  {
    hide Outcome, AllTerminate, Stopping, Several;
  }

  /** A partition that keeps the order of the calls agrees under the same condition. */
  lemma {:induction false} PartitionAgrees(jobs: seq<Job>, plan: Plan)
    requires Undisturbed(jobs) && plan.partition.Some? && !plan.sequential && |jobs| > 1
    requires Calm(plan.partition.value) && Flatten(plan.partition.value) == jobs
    ensures BatchFor(jobs, plan) == BatchFor(jobs, plan.(sequential := true)) <==> !StopsEarly(plan.partition.value)
  {
    hide Outcome;
    var groups := plan.partition.value;
    TakenAll(jobs);
    if |groups| <= 1 {
      TakenAll(Sole(jobs, plan).jobs);
      if |groups| == 1 { assert Flatten(groups) == groups[0].jobs + Flatten(groups[1..]) == groups[0].jobs; }
    } else {
      GroupsAgree(groups);
    }
  }
}
