/** What becomes of each tool call, told from the call's own fields: which events carry its id and which
    result is announced, however the batch is executed. */
module AgentCalls {
  import opened Basics
  import opened AgentTools
  import opened AgentLoop
  import opened AgentState

  // ----- The verdict on a call

  /** The tool of the call is not run. */
  predicate Spared(j: Job) { !j.found || j.invalid.Some? || j.abortedInPrepare || j.hook.Blocks? }

  /** `r` and `isError` are what a call must report. A call to no tool, with bad arguments, found aborted or
      blocked by the hook, in this order of precedence, is answered without its tool; any other is
      answered with what the tool returned or threw, changed field by field by the hook behind it, or
      with what that hook threw. */
  ghost predicate Verdict(j: Job, r: Result, isError: bool) {
    && (!j.found ==> r.content == "Tool " + j.call.name + " not found")
    && (j.found && j.invalid.Some? ==> r.content == j.invalid.value)
    && (j.found && j.invalid.None? && j.abortedInPrepare ==> r.content == "Operation aborted")
    && (!j.found || j.invalid.Some? || j.abortedInPrepare ==> isError && !r.terminate)
    && (j.found && j.invalid.None? && !j.abortedInPrepare && j.hook.Blocks? ==>
          && r.content == (if j.hook.reason != "" then j.hook.reason else "Tool execution was blocked")
          && r.terminate == j.hook.terminate && (isError <==> j.hook.isError != Some(false)))
    && (!Spared(j) ==>
          && (j.after.Throws? ==> r.content == j.after.message && !r.terminate && isError)
          && (!j.after.Throws? ==>
                var patched := j.after.Patch?;
                && r.content == (if patched && j.after.content.Some? then j.after.content.value
                                 else match j.execution case Returns(x) => x.content case Fails(m) => m)
                && (r.terminate <==> if patched && j.after.terminate.Some? then j.after.terminate.value
                                     else j.execution.Returns? && j.execution.result.terminate)
                && (isError <==> if patched && j.after.isError.Some? then j.after.isError.value
                                 else j.execution.Fails?)))
  }

  lemma {:induction false} VerdictUnique(j: Job, r: Result, e: bool, r': Result, e': bool)
    requires Verdict(j, r, e) && Verdict(j, r', e')
    ensures r == r' && e == e'
  {
  }

  lemma {:induction false} OutcomeVerdict(j: Job)
    ensures Verdict(j, Outcome(j).result, Outcome(j).isError) && Outcome(j).call == j.call
    ensures Spared(j) <==> Immediate(j).Some?
  {
  }

  // ----- The events of one call

  /** The event reports on the call with this id. */
  predicate On(e: Event, id: string) { (e.ToolStart? || e.ToolUpdate? || e.ToolEnd?) && e.id == id }

  function About(events: seq<Event>, id: string): seq<Event> {
    if events == [] then [] else
      var k := |events| - 1;
      About(events[..k], id) + (if On(events[k], id) then [events[k]] else [])
  }

  /** What is reported on a call: its start, the progress of its tool if that runs, and its end. */
  function Story(j: Job): seq<Event> {
    [ToolStart(j.call.id)] + (if Immediate(j).Some? then [] else Updates(j)) + [EndOf(Outcome(j))]
  }

  /** The events are those of the calls, each with its own story. */
  ghost predicate Tells(events: seq<Event>, jobs: seq<Job>) {
    && (forall i :: 0 <= i < |jobs| ==> About(events, jobs[i].call.id) == Story(jobs[i]))
    && (forall id :: id !in IdsOf(jobs) ==> About(events, id) == [])
  }

  lemma {:induction false} AboutConcat(a: seq<Event>, b: seq<Event>, id: string)
    ensures About(a + b, id) == About(a, id) + About(b, id)
    decreases |b|
  {
    if b == [] {
      assert a + b == a;
    } else {
      var k := |b| - 1;
      assert (a + b)[..|a| + k] == a + b[..k] && (a + b)[|a| + k] == b[k];
      AboutConcat(a, b[..k], id);
    }
  }

  lemma {:induction false} AboutAll(events: seq<Event>, id: string)
    ensures (forall e :: e in events ==> On(e, id)) ==> About(events, id) == events
    ensures (forall e :: e in events ==> !On(e, id)) ==> About(events, id) == []
    decreases |events|
  {
    if events != [] {
      var k := |events| - 1;
      AboutAll(events[..k], id);
      assert events == events[..k] + [events[k]];
      assert events[k] in events && forall e :: e in events[..k] ==> e in events;
    }
  }

  lemma {:induction false} QuietAbout(events: seq<Event>, id: string)
    requires forall e :: e in events ==> !e.ToolStart? && !e.ToolUpdate? && !e.ToolEnd?
    ensures About(events, id) == []
  {
    AboutAll(events, id);
  }

  lemma {:induction false} StoryIds(j: Job)
    ensures forall e :: e in Story(j) ==> On(e, j.call.id)
  {
    hide Immediate;
    OutcomeCall(j);
  }

  lemma {:induction false} TellsConcat(a: seq<Event>, x: seq<Job>, b: seq<Event>, y: seq<Job>)
    requires Tells(a, x) && Tells(b, y) && NoDup(IdsOf(x + y))
    ensures Tells(a + b, x + y)
  {
    hide About, Story;
    var c, z := a + b, x + y;
    IdsConcat(x, y);
    forall i | 0 <= i < |z| ensures About(c, z[i].call.id) == Story(z[i]) {
      AboutConcat(a, b, z[i].call.id);
      assert IdsOf(z)[i] == z[i].call.id;
      if i < |x| {
        assert z[i] == x[i];
        forall k | 0 <= k < |y| ensures IdsOf(y)[k] != z[i].call.id { assert IdsOf(z)[|x| + k] == IdsOf(y)[k]; }
      } else {
        assert z[i] == y[i - |x|];
        forall k | 0 <= k < |x| ensures IdsOf(x)[k] != z[i].call.id { assert IdsOf(z)[k] == IdsOf(x)[k]; }
      }
    }
    forall id | id !in IdsOf(z) ensures About(c, id) == [] {
      AboutConcat(a, b, id);
      assert id !in IdsOf(x) && id !in IdsOf(y);
    }
  }

  lemma {:induction false} TellsNothing()
    ensures Tells([], [])
  {
  }

  lemma {:induction false} RunOfTells(j: Job)
    ensures Tells(RunOf(j), [j])
  {
    hide Immediate, Outcome, About;
    StoryIds(j);
    var rest := Announce(MessageOf(Outcome(j)));
    assert RunOf(j) == Story(j) + rest;
    forall id ensures About(RunOf(j), id) == if id == j.call.id then Story(j) else [] {
      AboutConcat(Story(j), rest, id);
      QuietAbout(rest, id);
      AboutAll(Story(j), id);
    }
    assert IdsOf([j]) == [j.call.id];
  }

  lemma {:induction false} SequentialTells(jobs: seq<Job>)
    requires NoDup(IdsOf(jobs))
    ensures Tells(SequentialTrace(jobs), jobs)
    decreases |jobs|
  {
    hide Tells, RunOf;
    if jobs == [] {
      TellsNothing();
    } else {
      var k := |jobs| - 1;
      assert jobs == jobs[..k] + [jobs[k]];
      IdsConcat(jobs[..k], [jobs[k]]);
      NoDupParts(IdsOf(jobs[..k]), IdsOf([jobs[k]]));
      SequentialTells(jobs[..k]);
      RunOfTells(jobs[k]);
      TellsConcat(SequentialTrace(jobs[..k]), jobs[..k], RunOf(jobs[k]), [jobs[k]]);
    }
  }

  // ----- Parallel execution

  /** What the first pass tells of a call. */
  function Opened(j: Job): seq<Event> {
    [ToolStart(j.call.id)] + (if Immediate(j).Some? then [EndOf(Outcome(j))] else [])
  }

  lemma {:induction false} OpenedAbout(j: Job, id: string)
    ensures About(Opened(j), id) == if id == j.call.id then Opened(j) else []
  {
    hide Immediate;
    OutcomeCall(j);
    AboutAll(Opened(j), id);
  }

  lemma {:induction false} OpeningSnoc(jobs: seq<Job>, id: string)
    requires jobs != []
    ensures var k := |jobs| - 1; About(Opening(jobs), id) == About(Opening(jobs[..k]), id) + About(Opened(jobs[k]), id)
  {
    hide Immediate, Outcome, About;
    var k := |jobs| - 1;
    assert Opening(jobs) == Opening(jobs[..k]) + Opened(jobs[k]);
    AboutConcat(Opening(jobs[..k]), Opened(jobs[k]), id);
  }

  lemma {:induction false} OpeningElse(jobs: seq<Job>, id: string)
    requires forall i :: 0 <= i < |jobs| ==> jobs[i].call.id != id
    ensures About(Opening(jobs), id) == []
    decreases |jobs|
  {
    hide Opened, About, Opening;
    if jobs == [] {
      NothingOpened(jobs, id);
    } else {
      var k := |jobs| - 1;
      OpeningElse(jobs[..k], id);
      OpeningSnoc(jobs, id);
      OpenedAbout(jobs[k], id);
    }
  }

  lemma {:induction false} NothingOpened(jobs: seq<Job>, id: string)
    requires jobs == []
    ensures About(Opening(jobs), id) == []
  {
  }

  lemma {:induction false} OpeningAbout(jobs: seq<Job>, i: nat)
    requires NoDup(IdsOf(jobs)) && i < |jobs|
    ensures About(Opening(jobs), jobs[i].call.id) == Opened(jobs[i])
    decreases |jobs|
  {
    hide Opened, About, Opening, NoDup;
    var k := |jobs| - 1;
    var id := jobs[i].call.id;
    IdsApart(jobs);
    OpeningSnoc(jobs, id);
    OpenedAbout(jobs[k], id);
    if i < k {
      assert IdsOf(jobs[..k]) == IdsOf(jobs)[..k];
      NoDupPrefix(IdsOf(jobs), k);
      OpeningAbout(jobs[..k], i);
    } else {
      OpeningElse(jobs[..k], id);
    }
  }

  lemma {:induction false} IdsApart(jobs: seq<Job>)
    requires NoDup(IdsOf(jobs))
    ensures forall i, j :: 0 <= i < j < |jobs| ==> jobs[i].call.id != jobs[j].call.id
  {
    forall i, j | 0 <= i < j < |jobs| ensures jobs[i].call.id != jobs[j].call.id {
      assert IdsOf(jobs)[i] == jobs[i].call.id && IdsOf(jobs)[j] == jobs[j].call.id;
    }
  }

  /** The tags tell the events of the calls apart by their ids. */
  lemma {:induction false} TaggedAbout(jobs: seq<Job>, tags: seq<nat>, events: seq<Event>, i: nat)
    requires |tags| == |events| && NoDup(IdsOf(jobs)) && i < |jobs|
    requires forall k :: 0 <= k < |tags| ==> tags[k] < |jobs| && On(events[k], jobs[tags[k]].call.id)
    ensures About(events, jobs[i].call.id) == Of(tags, events, i)
    decreases |tags|
  {
    if tags != [] {
      var k := |tags| - 1;
      TaggedAbout(jobs, tags[..k], events[..k], i);
      assert IdsOf(jobs)[i] == jobs[i].call.id && IdsOf(jobs)[tags[k]] == jobs[tags[k]].call.id;
    }
  }

  lemma {:induction false} StepsIds(j: Job)
    ensures forall e :: e in Steps(j) ==> On(e, j.call.id)
  {
    OutcomeCall(j);
  }

  lemma {:induction false} RunningOn(jobs: seq<Job>, tags: seq<nat>, events: seq<Event>)
    requires Interleaves(jobs, tags, events)
    ensures forall k :: 0 <= k < |tags| ==> tags[k] < |jobs| && On(events[k], jobs[tags[k]].call.id)
  {
    hide Immediate, Steps, Of;
    forall k | 0 <= k < |tags| ensures On(events[k], jobs[tags[k]].call.id) {
      TaggedMember(tags, events, k);
      StepsIds(jobs[tags[k]]);
    }
  }

  lemma {:induction false} UntaggedOf(tags: seq<nat>, events: seq<Event>, i: nat)
    requires |tags| == |events| && forall k :: 0 <= k < |tags| ==> tags[k] != i
    ensures Of(tags, events, i) == []
    decreases |tags|
  {
    if tags != [] { UntaggedOf(tags[..|tags| - 1], events[..|tags| - 1], i); }
  }

  lemma {:induction false} RunningAbout(jobs: seq<Job>, tags: seq<nat>, events: seq<Event>, i: nat)
    requires Interleaves(jobs, tags, events) && NoDup(IdsOf(jobs)) && i < |jobs|
    ensures About(events, jobs[i].call.id) == if Immediate(jobs[i]).Some? then [] else Steps(jobs[i])
  {
    hide Immediate, Steps, Of, About;
    RunningOn(jobs, tags, events);
    TaggedAbout(jobs, tags, events, i);
    if Immediate(jobs[i]).Some? { UntaggedOf(tags, events, i); }
  }

  lemma {:induction false} RunningElse(jobs: seq<Job>, tags: seq<nat>, events: seq<Event>, id: string)
    requires Interleaves(jobs, tags, events) && id !in IdsOf(jobs)
    ensures About(events, id) == []
  {
    hide Immediate, Steps, Of;
    RunningOn(jobs, tags, events);
    forall e | e in events ensures !On(e, id) {
      var k :| 0 <= k < |events| && events[k] == e;
      assert IdsOf(jobs)[tags[k]] == jobs[tags[k]].call.id;
    }
    AboutAll(events, id);
  }

  lemma {:induction false} AnnouncementsAbout(ms: seq<Message>, id: string)
    ensures About(Announcements(ms), id) == []
    decreases |ms|
  {
    hide About;
    if ms == [] {
      QuietAbout([], id);
    } else {
      var k := |ms| - 1;
      AnnouncementsAbout(ms[..k], id);
      QuietAbout(Announce(ms[k]), id);
      AboutConcat(Announcements(ms[..k]), Announce(ms[k]), id);
    }
  }

  lemma {:induction false} ThreeAbout(a: seq<Event>, b: seq<Event>, ms: seq<Message>, id: string)
    ensures About(a + b + Announcements(ms), id) == About(a, id) + About(b, id)
  {
    hide About;
    AboutConcat(a + b, Announcements(ms), id);
    AboutConcat(a, b, id);
    AnnouncementsAbout(ms, id);
  }

  lemma {:induction false} StoryParts(j: Job)
    ensures Story(j) == Opened(j) + if Immediate(j).Some? then [] else Steps(j)
  {
    hide Immediate, Outcome;
    if Immediate(j).None? { Reassociate([ToolStart(j.call.id)], Updates(j), [EndOf(Outcome(j))]); }
  }

  lemma {:induction false} GroupTells(jobs: seq<Job>, events: seq<Event>)
    requires GroupTrace(jobs, events) && NoDup(IdsOf(Taken(jobs)))
    ensures Tells(events, Taken(jobs))
  {
    hide Taken, Opening, Interleaves, Messages, About, Story, Opened, Immediate, Steps;
    var taken := Taken(jobs);
    var running, tags :| Interleaves(taken, tags, running)
        && events == Opening(taken) + running + Announcements(Messages(taken));
    forall i | 0 <= i < |taken| ensures About(events, taken[i].call.id) == Story(taken[i]) {
      var id := taken[i].call.id;
      ThreeAbout(Opening(taken), running, Messages(taken), id);
      OpeningAbout(taken, i);
      RunningAbout(taken, tags, running, i);
      StoryParts(taken[i]);
    }
    forall id | id !in IdsOf(taken) ensures About(events, id) == [] {
      ThreeAbout(Opening(taken), running, Messages(taken), id);
      forall i | 0 <= i < |taken| ensures taken[i].call.id != id { assert IdsOf(taken)[i] == taken[i].call.id; }
      OpeningElse(taken, id);
      RunningElse(taken, tags, running, id);
    }
  }

  lemma {:induction false} PartsTell(groups: seq<Group>, parts: seq<seq<Event>>)
    requires GroupTraces(groups, parts) && NoDup(IdsOf(TakenOf(groups)))
    ensures Tells(Concat(parts), TakenOf(groups))
    decreases |groups|
  {
    hide Tells, Taken, GroupTrace;
    if groups == [] {
      TellsNothing();
    } else {
      var k := |groups| - 1;
      var a, b := TakenOf(groups[..k]), Taken(groups[k].jobs);
      IdsConcat(a, b);
      NoDupParts(IdsOf(a), IdsOf(b));
      PartsTell(groups[..k], parts[..k]);
      GroupTells(groups[k].jobs, parts[k]);
      TellsConcat(Concat(parts[..k]), a, parts[k], b);
    }
  }

  lemma {:induction false} BatchTells(jobs: seq<Job>, plan: Plan, events: seq<Event>)
    requires BatchTrace(jobs, plan, events) && NoDup(IdsOf(TakenIn(jobs, plan)))
    ensures Tells(events, TakenIn(jobs, plan))
  {
    hide Tells, Taken, GroupTrace, GroupsRun, SequentialTrace;
    if plan.sequential {
      SequentialTells(Taken(jobs));
    } else if |GroupsOf(jobs, plan)| <= 1 {
      GroupTells(Sole(jobs, plan).jobs, events);
    } else {
      var groups := GroupsOf(jobs, plan);
      var parts :| GroupTraces(GroupsRun(groups), parts) && events == Concat(parts);
      PartsTell(GroupsRun(groups), parts);
    }
  }

  // ----- The results

  lemma {:induction false} GroupMessagesTaken(groups: seq<Group>)
    ensures GroupMessages(groups) == Messages(TakenOf(groups))
    decreases |groups|
  {
    hide Taken, Outcome;
    if groups != [] {
      var k := |groups| - 1;
      GroupMessagesTaken(groups[..k]);
      MessagesConcat(TakenOf(groups[..k]), Taken(groups[k].jobs));
    }
  }

  /** The results announced are those of the calls taken up. */
  lemma {:induction false} ResultsTaken(jobs: seq<Job>, plan: Plan, events: seq<Event>)
    requires BatchTrace(jobs, plan, events)
    ensures Ended(events) == Messages(TakenIn(jobs, plan))
  {
    hide Ended, Taken, Messages, GroupTrace, GroupsRun, GroupsBatch, SequentialTrace, AllTerminate;
    BatchEnded(jobs, plan, events);
    if !plan.sequential && |GroupsOf(jobs, plan)| > 1 {
      RunMessages(GroupsOf(jobs, plan));
      GroupMessagesTaken(GroupsRun(GroupsOf(jobs, plan)));
    }
  }

  /** The events on call `i` of those taken up are its start, the progress its tool reports if it is run,
      and an end with the verdict; result `i` announced is that verdict. */
  ghost predicate Reported(events: seq<Event>, j: Job, i: nat, r: Result, isError: bool) {
    && Verdict(j, r, isError)
    && About(events, j.call.id)
       == [ToolStart(j.call.id)]
          + (if Spared(j) then []
             else seq(|j.updates|, k requires 0 <= k < |j.updates| => ToolUpdate(j.call.id, j.updates[k])))
          + [ToolEnd(j.call.id, r, isError)]
    && i < |Ended(events)| && Ended(events)[i] == ToolResult(j.call.id, j.call.name, r.content, isError)
  }

  /** However a batch of calls with distinct ids is executed, each call taken up is reported with the
      verdict its own fields demand, and the results come in the order of the calls. */
  lemma {:induction false} CallReported(jobs: seq<Job>, plan: Plan, events: seq<Event>, i: nat)
    requires BatchTrace(jobs, plan, events) && NoDup(IdsOf(TakenIn(jobs, plan))) && i < |TakenIn(jobs, plan)|
    ensures |Ended(events)| == |TakenIn(jobs, plan)|
    ensures exists r, isError :: Reported(events, TakenIn(jobs, plan)[i], i, r, isError)
  {
    hide BatchTrace, TakenIn, Ended, About, Verdict, Immediate, Executed;
    var j := TakenIn(jobs, plan)[i];
    BatchTells(jobs, plan, events);
    ResultsTaken(jobs, plan, events);
    OutcomeVerdict(j);
    assert Reported(events, j, i, Outcome(j).result, Outcome(j).isError);
  }

  // ----- Which calls are taken up, and whether the batch asks to stop

  /** `taken` is `jobs` up to and including the first call after which the run is found aborted. */
  ghost predicate UpToAbort(jobs: seq<Job>, taken: seq<Job>) {
    && taken <= jobs && (forall i :: 0 <= i < |taken| - 1 ==> !taken[i].abortedAfter)
    && (|taken| < |jobs| ==> taken != [] && taken[|taken| - 1].abortedAfter)
  }

  /** The verdict on the call asks to stop. */
  ghost predicate Stops(j: Job) { exists r, e :: Verdict(j, r, e) && r.terminate }

  /** There are calls and all of them ask to stop. */
  ghost predicate AllStop(jobs: seq<Job>) { jobs != [] && forall i :: 0 <= i < |jobs| ==> Stops(jobs[i]) }

  /** Nothing is run after this group: its calls all ask to stop, or the run is found aborted. */
  ghost predicate Halts(g: Group) { g.jobs != [] && (AllStop(Taken(g.jobs)) || g.abortedAfter) }

  lemma {:induction false} TakenUpToAbort(jobs: seq<Job>)
    ensures UpToAbort(jobs, Taken(jobs))
    decreases |jobs|
  {
    if jobs != [] && !jobs[0].abortedAfter {
      TakenUpToAbort(jobs[1..]);
      var t := Taken(jobs);
      assert t == [jobs[0]] + Taken(jobs[1..]) && jobs == [jobs[0]] + jobs[1..];
      forall i | 0 <= i < |t| - 1 ensures !t[i].abortedAfter {
        if i > 0 { assert t[i] == Taken(jobs[1..])[i - 1]; }
      }
    }
  }

  lemma {:induction false} StopsExactly(j: Job)
    ensures Stops(j) <==> Outcome(j).result.terminate
  {
    hide Verdict, Outcome;
    OutcomeVerdict(j);
    if r, e :| Verdict(j, r, e) && r.terminate {
      VerdictUnique(j, r, e, Outcome(j).result, Outcome(j).isError);
    }
  }

  lemma {:induction false} AllStopExactly(jobs: seq<Job>)
    ensures AllTerminate(jobs) <==> AllStop(jobs)
  {
    hide Stops, Outcome;
    forall i | 0 <= i < |jobs| ensures Stops(jobs[i]) <==> Outcome(jobs[i]).result.terminate {
      StopsExactly(jobs[i]);
    }
  }

  /** The first `n` groups are run: none before the last of them halts, and the last does unless it is the
      last of all. */
  ghost predicate RunsUpTo(groups: seq<Group>, n: nat) {
    && n <= |groups| && (forall k :: 0 <= k < n - 1 ==> !Halts(groups[k]))
    && (n < |groups| ==> n > 0 && Halts(groups[n - 1]))
  }

  lemma {:induction false} TakenOfCons(g: Group, groups: seq<Group>)
    ensures TakenOf([g] + groups) == Taken(g.jobs) + TakenOf(groups)
    decreases |groups|
  {
    hide Taken;
    if groups == [] {
      assert [g] + groups == [g] && [g][..0] == [];
    } else {
      var k := |groups| - 1;
      assert ([g] + groups)[..k + 1] == [g] + groups[..k];
      TakenOfCons(g, groups[..k]);
      Reassociate(Taken(g.jobs), TakenOf(groups[..k]), Taken(groups[k].jobs));
    }
  }

  lemma {:induction false} GroupsUpTo(groups: seq<Group>) returns (n: nat)
    ensures RunsUpTo(groups, n) && TakenOf(GroupsRun(groups)) == TakenOf(groups[..n])
    ensures GroupsBatch(groups).terminate <==> exists k :: 0 <= k < |groups| && Halts(groups[k])
    decreases |groups|
  {
    hide Taken, AllTerminate, AllStop, Messages;
    n := 0;
    if groups != [] {
      var g, rest := groups[0], groups[1..];
      AllStopExactly(Taken(g.jobs));
      if Halts(g) {
        n := 1;
        assert groups[..1] == [g];
      } else {
        var m := GroupsUpTo(rest);
        n := m + 1;
        TakenOfCons(g, GroupsRun(rest));
        TakenOfCons(g, rest[..m]);
        assert groups[..n] == [g] + rest[..m];
        HaltsLater(groups);
        if g.jobs == [] { NothingTaken(g.jobs); }
        forall k | 0 <= k < n - 1 ensures !Halts(groups[k]) {
          if k > 0 { assert groups[k] == rest[k - 1]; }
        }
        if n < |groups| { assert groups[n - 1] == if m > 0 then rest[m - 1] else g; }
      }
    }
  }

  lemma {:induction false} NothingTaken(jobs: seq<Job>)
    requires jobs == []
    ensures Taken(jobs) == []
  {
  }

  lemma {:induction false} HaltsLater(groups: seq<Group>)
    requires groups != [] && !Halts(groups[0])
    ensures (exists k :: 0 <= k < |groups| && Halts(groups[k]))
      <==> exists k :: 0 <= k < |groups[1..]| && Halts(groups[1..][k])
  {
    hide Halts;
    var rest := groups[1..];
    if k :| 0 <= k < |groups| && Halts(groups[k]) { assert rest[k - 1] == groups[k]; }
    if k :| 0 <= k < |rest| && Halts(rest[k]) { assert groups[k + 1] == rest[k]; }
  }

  /** Several calls that are partitioned into more than one group run group by group up to the first that
      halts, and the batch asks to stop exactly if one does; otherwise the calls, or those of the only
      group, are taken up to an abort, and the batch asks to stop exactly if all of those do. */
  lemma {:induction false} TakenExactly(jobs: seq<Job>, plan: Plan)
    ensures var split := !plan.sequential && |jobs| > 1 && plan.partition.Some?;
      var taken := TakenIn(jobs, plan); var terminate := BatchFor(jobs, plan).terminate;
      if split && |plan.partition.value| > 1 then
        var groups := plan.partition.value;
        && (terminate <==> exists k :: 0 <= k < |groups| && Halts(groups[k]))
        && exists n: nat :: RunsUpTo(groups, n) && taken == TakenOf(groups[..n])
      else
        && UpToAbort(if split && |plan.partition.value| == 1 then plan.partition.value[0].jobs else jobs, taken)
        && (terminate <==> AllStop(taken))
  {
    hide Taken, AllTerminate, AllStop, GroupsBatch, GroupsRun, TakenOf, Halts, Messages;
    if plan.sequential {
      TakenUpToAbort(jobs);
      AllStopExactly(Taken(jobs));
    } else if |GroupsOf(jobs, plan)| <= 1 {
      TakenUpToAbort(Sole(jobs, plan).jobs);
      AllStopExactly(Taken(Sole(jobs, plan).jobs));
    } else {
      var n := GroupsUpTo(plan.partition.value);
    }
  }
}
