/** A run that meets the iteration cap: ten tokens are spent and persisted, and the final event says zero. */
module CappedRun {
  import opened Common
  import opened Graph
  import opened WorkflowValidation
  import opened RunLoop
  import Routing

  /** One agent whose only edge leads back to it. */
  ghost predicate Loops(job: Job, a: Id) {
    && job.cyclic && a.Present()
    && Routing.Outgoing(job.edges, a) == [Edge(a, a, "")]
    && forall i: nat :: Turn(job, a, job.env(i)) == Did(1, AgentStep, "", "")
  }

  lemma {:induction false} StaysAt(job: Job, a: Id, s: seq<Id>, k: nat)
    requires Loops(job, a) && Trail(job, [a], s) && k < |s|
    ensures s[k] == a
    decreases k
  {
    if k > 0 {
      StaysAt(job, a, s, k - 1);
      assert Chosen(job, k, s[k - 1], s[k]);
    }
  }

  lemma {:induction false} OneTokenEach(job: Job, a: Id, processed: seq<Id>, logs: seq<LogRow>)
    requires Loops(job, a) && Explained(job, processed, logs)
    requires forall k :: 0 <= k < |processed| ==> processed[k] == a
    ensures Tokens(logs) == |processed|
    decreases |processed|
  {
    if processed != [] {
      assert Turn(job, a, job.env(|processed|)).Did?;
      OneTokenEach(job, a, processed[..|processed| - 1], logs[..|logs| - 1]);
    }
  }

  lemma LoopMeetsCap(job: Job, a: Id, processed: seq<Id>, left: seq<Id>, done: seq<LogRow>, run: Run, tail: Tail)
    requires Loops(job, a) && Concluded(job, [a], processed, left, done, run, tail, true)
    ensures run.status == Failed && run.totalTokens == MAX_ITERATIONS
    ensures run.events != [] && run.events[|run.events| - 1] == ExecutionComplete(Failed, 0)
  {
    var s := processed + left;
    forall k | 0 <= k < |s|
      ensures s[k] == a
    {
      StaysAt(job, a, s, k);
    }
    hide Explained, Trail;
    assert forall k :: 0 <= k < |processed| ==> processed[k] == s[k];
    OneTokenEach(job, a, processed, done);
    assert left != [] ==> left[0] == s[|processed|];
  }

  method RunSelfLoop() returns (run: Run)
    ensures run.status == Failed && run.totalTokens == 10
    ensures run.events != [] && run.events[|run.events| - 1] == ExecutionComplete(Failed, 0)
  {
    var a := Name("a");
    var job := Job([Node(a, "agent", "", "", "", "")], [Edge(a, a, "")], [AgentConfig(a, false, 1)], true,
                   (i: nat) => Tick(false, 0, 100, 0, 100, AgentResult(1, 0, "", ""), ConnectorOk));
    var launch := Launch(true, true, 0, 100, Pending);
    ghost var start, processed, left, done, tail;
    run, start, processed, left, done, tail := RunExecution(launch, job);
    SelfLoopLaunches(launch, job, a);
    hide Concluded;
    StartsAt(job, a, start);
    LoopMeetsCap(job, a, processed, left, done, run, tail);
  }

  lemma SelfLoopLaunches(launch: Launch, job: Job, a: Id)
    requires launch == Launch(true, true, 0, 100, Pending) && a == Name("a")
    requires job.nodes == [Node(a, "agent", "", "", "", "")] && job.edges == [Edge(a, a, "")]
    requires job.configs == [AgentConfig(a, false, 1)] && job.cyclic
    requires forall i: nat :: job.env(i) == Tick(false, 0, 100, 0, 100, AgentResult(1, 0, "", ""), ConnectorOk)
    ensures Launches(launch, job) && Loops(job, a) && Ids(job.nodes) == [a]
  {
    assert job.nodes[0] in job.nodes && job.configs[0] in job.configs && job.edges[0] in job.edges;
    assert a in ToSet(Ids(job.nodes));
    assert WellFormed(Ids(job.nodes), job.edges);
    assert Configured(job.nodes, job.configs);
  }

  lemma StartsAt(job: Job, a: Id, start: seq<Id>)
    requires Loops(job, a) && Ids(job.nodes) == [a] && StartQueue(job, start)
    ensures start == [a]
  {
  }
}
