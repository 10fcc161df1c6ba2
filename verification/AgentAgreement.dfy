/** Executions of one batch of tool calls, compared by the events they emit. */
module AgentAgreement {
  import opened AgentTools
  import opened AgentLoop
  import opened AgentState

  /** The ends of tool executions that a trace reports. */
  function Ends(events: seq<Event>): set<Event> { set e | e in events && e.ToolEnd? }

  /** What a trace says about going on: some call ended and every one asked to stop. */
  predicate AsksToStop(events: seq<Event>) {
    Ends(events) != {} && forall e :: e in Ends(events) ==> e.result.terminate
  }

  function JobEnds(jobs: seq<Job>): set<Event> { set j | j in jobs :: EndOf(Outcome(j)) }

  lemma {:induction false} EndsConcat(a: seq<Event>, b: seq<Event>)
    ensures Ends(a + b) == Ends(a) + Ends(b)
  {
  }

  lemma {:induction false} JobEndsSnoc(jobs: seq<Job>, k: nat)
    requires k == |jobs| - 1
    ensures JobEnds(jobs) == JobEnds(jobs[..k]) + {EndOf(Outcome(jobs[k]))}
  {
    hide Outcome;
    assert jobs == jobs[..k] + [jobs[k]];
  }

  lemma {:induction false} QuietEndsNothing(events: seq<Event>)
    requires Quiet(events)
    ensures Ends(events) == {}
  {
  }

  lemma {:induction false} RunOfEnds(j: Job)
    ensures Ends(RunOf(j)) == {EndOf(Outcome(j))}
  {
    hide Outcome, Immediate;
    var middle := if Immediate(j).Some? then [] else Updates(j);
    EndsConcat([ToolStart(j.call.id)] + middle + [EndOf(Outcome(j))], Announce(MessageOf(Outcome(j))));
    EndsConcat([ToolStart(j.call.id)] + middle, [EndOf(Outcome(j))]);
    EndsConcat([ToolStart(j.call.id)], middle);
    assert forall e :: e in middle ==> e.ToolUpdate?;
    QuietEndsNothing(Announce(MessageOf(Outcome(j))));
  }

  lemma {:induction false} SequentialEnds(jobs: seq<Job>)
    ensures Ends(SequentialTrace(jobs)) == JobEnds(jobs)
    decreases |jobs|
  {
    hide Outcome, RunOf;
    if jobs != [] {
      var k := |jobs| - 1;
      SequentialEnds(jobs[..k]);
      EndsConcat(SequentialTrace(jobs[..k]), RunOf(jobs[k]));
      RunOfEnds(jobs[k]);
      JobEndsSnoc(jobs, k);
    }
  }

  /** The ends of the calls that are settled at once, or of those that run. */
  function EndsOf(jobs: seq<Job>, atOnce: bool): set<Event> {
    set j | j in jobs && Immediate(j).Some? == atOnce :: EndOf(Outcome(j))
  }

  lemma {:induction false} OpeningEnds(jobs: seq<Job>)
    ensures Ends(Opening(jobs)) == EndsOf(jobs, true)
    decreases |jobs|
  {
    hide Outcome, Immediate;
    if jobs != [] {
      var k := |jobs| - 1;
      OpeningEnds(jobs[..k]);
      assert jobs == jobs[..k] + [jobs[k]];
      var end: seq<Event> := if Immediate(jobs[k]).Some? then [EndOf(Outcome(jobs[k]))] else [];
      EndsConcat(Opening(jobs[..k]), [ToolStart(jobs[k].call.id)] + end);
      EndsConcat([ToolStart(jobs[k].call.id)], end);
    }
  }

  lemma {:induction false} RunningEnds(jobs: seq<Job>, tags: seq<nat>, events: seq<Event>)
    requires Interleaves(jobs, tags, events)
    ensures Ends(events) == EndsOf(jobs, false)
  {
    hide Outcome, Immediate, Of;
    forall e | e in Ends(events) ensures e in EndsOf(jobs, false) {
      var k :| 0 <= k < |events| && events[k] == e;
      TaggedMember(tags, events, k);
      assert jobs[tags[k]] in jobs && e in Steps(jobs[tags[k]]);
    }
    forall e | e in EndsOf(jobs, false) ensures e in Ends(events) {
      var j :| j in jobs && Immediate(j).None? && e == EndOf(Outcome(j));
      var i :| 0 <= i < |jobs| && jobs[i] == j;
      assert Steps(j)[|Steps(j)| - 1] == e;
      OfMember(tags, events, i, e);
    }
  }

  lemma {:induction false} GroupEnds(jobs: seq<Job>, events: seq<Event>)
    requires GroupTrace(jobs, events)
    ensures Ends(events) == JobEnds(Taken(jobs))
  {
    hide Taken, Opening, Interleaves, Messages, Outcome, Immediate;
    var taken := Taken(jobs);
    var running, tags :| Interleaves(taken, tags, running)
        && events == Opening(taken) + running + Announcements(Messages(taken));
    EndsConcat(Opening(taken) + running, Announcements(Messages(taken)));
    EndsConcat(Opening(taken), running);
    OpeningEnds(taken);
    RunningEnds(taken, tags, running);
    AnnouncementsQuiet(Messages(taken));
    QuietEndsNothing(Announcements(Messages(taken)));
    assert JobEnds(taken) == EndsOf(taken, true) + EndsOf(taken, false);
  }

  lemma {:induction false} StopsAsOne(jobs: seq<Job>, events: seq<Event>)
    requires Ends(events) == JobEnds(jobs)
    ensures AllTerminate(jobs) <==> AsksToStop(events)
  {
    hide Outcome, Ends;
    if jobs != [] { assert EndOf(Outcome(jobs[0])) in JobEnds(jobs); }
    forall i | 0 <= i < |jobs| ensures EndOf(Outcome(jobs[i])) in Ends(events) { assert jobs[i] in jobs; }
  }

  /** Without a partition the ends reported are those of the calls taken up, and the decision to go on
      can be read off them. */
  lemma {:induction false} DecisionReported(jobs: seq<Job>, plan: Plan, events: seq<Event>)
    requires plan.partition.None? && BatchTrace(jobs, plan, events)
    ensures Ends(events) == JobEnds(Taken(jobs))
    ensures BatchFor(jobs, plan).terminate <==> AsksToStop(events)
  {
    hide Taken, GroupTrace, SequentialTrace, Ends, JobEnds, AllTerminate, AsksToStop;
    if plan.sequential { SequentialEnds(Taken(jobs)); } else { GroupEnds(jobs, events); }
    StopsAsOne(Taken(jobs), events);
  }

  /** Any parallel execution of a batch, in whatever order its tools finish, announces the same results in
      the same order, reports the same ends and asks to stop exactly when the sequential execution of
      the same calls does. With an abort this compares executions that notice it after the same call and
      whose calls come out the same; the two look for it at different moments. */
  lemma {:induction false} ParallelAgrees(jobs: seq<Job>, plan: Plan, parallel: seq<Event>, sequential: seq<Event>)
    requires plan.partition.None?
    requires BatchTrace(jobs, plan, parallel) && BatchTrace(jobs, plan.(sequential := true), sequential)
    ensures Ended(parallel) == Ended(sequential) && Ends(parallel) == Ends(sequential)
    ensures AsksToStop(parallel) <==> AsksToStop(sequential)
  {
    hide BatchTrace, Ended, AsksToStop, Ends;
    BatchEnded(jobs, plan, parallel);
    BatchEnded(jobs, plan.(sequential := true), sequential);
    DecisionReported(jobs, plan, parallel);
    DecisionReported(jobs, plan.(sequential := true), sequential);
  }

  /** A partitioned execution that keeps the order of the calls announces the results of the sequential
      one and takes the same decision if and only if no group among several asks to stop as a whole. */
  lemma {:induction false} PartitionExecutions(jobs: seq<Job>, plan: Plan, grouped: seq<Event>, sequential: seq<Event>)
    requires Undisturbed(jobs) && plan.partition.Some? && !plan.sequential && |jobs| > 1
    requires Calm(plan.partition.value) && Flatten(plan.partition.value) == jobs
    requires BatchTrace(jobs, plan, grouped) && BatchTrace(jobs, plan.(sequential := true), sequential)
    ensures Ended(grouped) == Ended(sequential) && (BatchFor(jobs, plan).terminate <==> AsksToStop(sequential))
      <==> !StopsEarly(plan.partition.value)
  {
    hide BatchTrace, Ended, AsksToStop, BatchFor, StopsEarly, Flatten;
    BatchEnded(jobs, plan, grouped);
    BatchEnded(jobs, plan.(sequential := true), sequential);
    SequentialDecision(jobs, plan, sequential);
    PartitionAgrees(jobs, plan);
  }

  lemma {:induction false} SequentialDecision(jobs: seq<Job>, plan: Plan, events: seq<Event>)
    requires BatchTrace(jobs, plan.(sequential := true), events)
    ensures BatchFor(jobs, plan.(sequential := true)).terminate <==> AsksToStop(events)
  {
    hide Taken, SequentialTrace, Ends, JobEnds, AllTerminate, AsksToStop;
    SequentialEnds(Taken(jobs));
    StopsAsOne(Taken(jobs), events);
  }
}
