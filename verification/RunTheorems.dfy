/** What follows from how a run concludes: its stream, its totals, and what it covered. */
module RunTheorems {
  import opened Common
  import opened Graph
  import opened WorkflowValidation
  import opened RunLoop
  import TopologicalSort
  import Routing

  /** The tokens announced by the step_complete events of a stream. */
  function EventTokens(events: seq<Event>): nat {
    if events == [] then 0
    else
      EventTokens(events[..|events| - 1])
      + match events[|events| - 1] { case StepComplete(_, t) => t case _ => 0 }
  }

  lemma {:induction false} EventTokensConcat(a: seq<Event>, b: seq<Event>)
    ensures EventTokens(a + b) == EventTokens(a) + EventTokens(b)
    decreases |b|
  {
    if b == [] {
      assert a + b == a;
    } else {
      EventTokensConcat(a, b[..|b| - 1]);
      assert (a + b)[..|a + b| - 1] == a + b[..|b| - 1];
    }
  }

  lemma {:induction false} StepEventsTokens(logs: seq<LogRow>)
    ensures EventTokens(StepEvents(logs)) == Tokens(logs) && |StepEvents(logs)| == 2 * |logs|
    decreases |logs|
  {
    if logs != [] {
      StepEventsTokens(logs[..|logs| - 1]);
      var pair := [StepStart(|logs|), StepComplete(|logs|, logs[|logs| - 1].tokens)];
      EventTokensConcat(StepEvents(logs[..|logs| - 1]), pair);
      assert pair[..1] == [StepStart(|logs|)];
      assert EventTokens(pair[..1]) == 0 by {
        assert pair[..1][..0] == [];
      }
    }
  }

  lemma {:induction false} StepEventsPrefix(logs: seq<LogRow>, k: nat)
    requires k <= |logs|
    ensures 2 * k <= |StepEvents(logs)| && StepEvents(logs)[..2 * k] == StepEvents(logs[..k])
    decreases |logs|
  {
    StepEventsTokens(logs);
    if k < |logs| {
      StepEventsPrefix(logs[..|logs| - 1], k);
      assert logs[..|logs| - 1][..k] == logs[..k];
    } else {
      assert logs[..k] == logs;
    }
  }

  /** A stream is (step_start k, step_complete k) for k = 1..n, then perhaps an unmatched start, perhaps an
      error, and exactly one final event; rows are numbered 1..; the final event carries the run's
      status and its persisted total, except at the iteration cap, where the total it carries is zero. */
  lemma StreamIsWellFormed(job: Job, start: seq<Id>, processed: seq<Id>, left: seq<Id>, done: seq<LogRow>, run: Run, tail: Tail)
    requires Concluded(job, start, processed, left, done, run, tail, true)
    ensures run.events == StepEvents(done) + tail.Events(|done|)
    ensures run.status in {Completed, Failed, Cancelled}
    ensures
      var capped := left != [] && job.cyclic && |processed| == MAX_ITERATIONS;
      tail.last == Some(ExecutionComplete(run.status, if capped then 0 else run.totalTokens))
    ensures tail.open ==> tail.failure.Some?
    ensures run.status == Completed ==> !tail.open && tail.failure == None
    ensures done <= run.logs && |run.logs| <= |done| + 1 && Numbered(run.logs)
    ensures Tokens(run.logs) == run.totalTokens
  {
    ExplainedIsNumbered(job, processed, done);
    NeverStopsCompleted(job, left, processed);
    hide Explained, Trail, Exhausted, Turn, Progress;
    RowsAfterDone(done, run);
    hide Tokens, StepEvents, Numbered;
  }

  /** A failed connector's row continues the numbering and spends nothing. */
  lemma RowsAfterDone(done: seq<LogRow>, run: Run)
    requires Numbered(done)
    requires run.logs == done
      || (|run.logs| == |done| + 1 && run.logs[..|done|] == done
          && run.logs[|done|].step == |done| + 1 && run.logs[|done|].tokens == 0)
    ensures Numbered(run.logs) && Tokens(run.logs) == Tokens(done)
  {
    hide Tokens, StepEvents;
    if run.logs != done {
      var row := run.logs[|done|];
      assert run.logs == done + [row];
      StepEventsPush(done, row);
      assert forall i :: 0 <= i < |done| ==> run.logs[i] == done[i];
    }
  }

  lemma {:induction false} ExplainedIsNumbered(job: Job, processed: seq<Id>, logs: seq<LogRow>)
    requires Explained(job, processed, logs)
    ensures Numbered(logs)
    decreases |processed|
  {
    if processed != [] {
      var init, node := processed[..|processed| - 1], processed[|processed| - 1];
      match Turn(job, node, job.env(|processed|))
      case Did(_, _, _, _) => ExplainedIsNumbered(job, init, logs[..|logs| - 1]);
      case PassOver => ExplainedIsNumbered(job, init, logs);
      case _ =>
    }
  }

  /** At every boundary of a run's stream, the tokens announced so far are the tokens of the log
      rows so far; over the whole stream they are the persisted total. */
  lemma AnnouncedTokensArePersisted(job: Job, start: seq<Id>, processed: seq<Id>, left: seq<Id>, done: seq<LogRow>,
                                    run: Run, tail: Tail, k: nat)
    requires Concluded(job, start, processed, left, done, run, tail, true) && k <= |done|
    ensures 2 * k <= |run.events| && EventTokens(run.events[..2 * k]) == Tokens(run.logs[..k])
    ensures EventTokens(run.events) == run.totalTokens == Tokens(run.logs)
  {
    StreamIsWellFormed(job, start, processed, left, done, run, tail);
    hide Concluded;
    StepEventsTokens(done);
    StepEventsPrefix(done, k);
    StepEventsTokens(done[..k]);
    assert run.events[..2 * k] == StepEvents(done)[..2 * k];
    assert run.logs[..k] == done[..k];
    EventTokensConcat(StepEvents(done), tail.Events(|done|));
    TailTokens(tail, |done|);
  }

  lemma TailTokens(tail: Tail, n: nat)
    requires tail.last.Some? ==> !tail.last.value.StepComplete?
    ensures EventTokens(tail.Events(n)) == 0
  {
    var a := if tail.open then [StepStart(n + 1)] else [];
    var b := if tail.failure.Some? then [Failure(tail.failure.value)] else [];
    var c := if tail.last.Some? then [tail.last.value] else [];
    EventTokensConcat(a + b, c);
    EventTokensConcat(a, b);
  }

  lemma {:induction false} RunnablesMembers(nodes: seq<Node>, configs: seq<AgentConfig>, ids: seq<Id>)
    ensures forall x :: x in Runnables(nodes, configs, ids) <==> x in ids && Runnable(nodes, configs, x)
    ensures Distinct(ids) ==> Distinct(Runnables(nodes, configs, ids))
    decreases |ids|
  {
    if ids != [] {
      RunnablesMembers(nodes, configs, ids[..|ids| - 1]);
      assert ids == ids[..|ids| - 1] + [ids[|ids| - 1]];
    }
  }

  /** Steps follow the edges: every predecessor that takes a step takes it before its successor. */
  ghost predicate StepsFollowArcs(nodes: seq<Node>, configs: seq<AgentConfig>, arcs: set<(Id, Id)>, s: seq<Id>) {
    forall j, u :: 0 <= j < |s| && (u, s[j]) in arcs && Runnable(nodes, configs, u) ==> u in s[..j]
  }

  lemma StepsFollowPush(nodes: seq<Node>, configs: seq<AgentConfig>, arcs: set<(Id, Id)>, r: seq<Id>, x: Id)
    requires StepsFollowArcs(nodes, configs, arcs, r)
    requires forall u :: (u, x) in arcs && Runnable(nodes, configs, u) ==> u in r
    ensures StepsFollowArcs(nodes, configs, arcs, r + [x])
  {
    hide Runnable;
    var s := r + [x];
    forall j, u | 0 <= j < |s| && (u, s[j]) in arcs && Runnable(nodes, configs, u)
      ensures u in s[..j]
    {
      assert s[..j] == r[..j];
      assert j == |r| ==> r[..j] == r;
    }
  }

  lemma TopologicalInit(arcs: set<(Id, Id)>, rest: seq<Id>, x: Id)
    requires TopologicalSort.Topological(arcs, rest + [x])
    ensures TopologicalSort.Topological(arcs, rest)
    ensures forall u :: (u, x) in arcs ==> u in rest
  {
    var s := rest + [x];
    assert s[..|rest|] == rest && s[|rest|] == x;
    forall j, u | 0 <= j < |rest| && (u, rest[j]) in arcs
      ensures u in rest[..j]
    {
      assert s[j] == rest[j] && s[..j] == rest[..j];
    }
  }

  lemma {:induction false} RunnablesTopological(nodes: seq<Node>, configs: seq<AgentConfig>, arcs: set<(Id, Id)>, s: seq<Id>)
    requires TopologicalSort.Topological(arcs, s)
    ensures StepsFollowArcs(nodes, configs, arcs, Runnables(nodes, configs, s))
    decreases |s|
  {
    if s != [] {
      var rest, x := s[..|s| - 1], s[|s| - 1];
      assert s == rest + [x];
      TopologicalInit(arcs, rest, x);
      RunnablesTopological(nodes, configs, arcs, rest);
      RunnablesMembers(nodes, configs, rest);
      hide Runnable, TopologicalSort.Topological, StepsFollowArcs;
      if Runnable(nodes, configs, x) {
        StepsFollowPush(nodes, configs, arcs, Runnables(nodes, configs, rest), x);
      } else {
        assert Runnables(nodes, configs, rest) + [] == Runnables(nodes, configs, rest);
      }
    }
  }

  lemma {:induction false} NodeByDistinctId(nodes: seq<Node>, i: nat)
    requires Distinct(Ids(nodes)) && i < |nodes| && nodes[i].id.Present()
    ensures NodeById(nodes, nodes[i].id) == Some(nodes[i])
    decreases |nodes|
  {
    var last := |nodes| - 1;
    if i < last {
      assert Ids(nodes)[i] != Ids(nodes)[last];
      assert Ids(nodes[..last]) == Ids(nodes)[..last];
      NodeByDistinctId(nodes[..last], i);
    }
  }

  lemma {:induction false} LastConfigExists(configs: seq<AgentConfig>, id: Id)
    ensures LastConfig(configs, id).Some? <==> HasConfig(configs, id)
    decreases |configs|
  {
    if configs != [] {
      var rest := configs[..|configs| - 1];
      LastConfigExists(rest, id);
      assert forall c :: c in configs <==> c in rest || c == configs[|configs| - 1];
    }
  }

  /** Of several configurations for one node the last counts. */
  lemma {:induction false} LastConfigCounts(configs: seq<AgentConfig>, id: Id, k: nat)
    requires k < |configs| && configs[k].nodeId == id && forall j :: k < j < |configs| ==> configs[j].nodeId != id
    ensures LastConfig(configs, id) == Some(configs[k])
    decreases |configs|
  {
    if k < |configs| - 1 {
      LastConfigCounts(configs[..|configs| - 1], id, k);
    }
  }

  /** Agents take steps, and so do connectors, unless they have no id to be looked up by. */
  predicate TakesStep(n: Node) {
    n.IsAgent() || (n.IsConnector() && n.id.Present())
  }

  /** On a configured definition, exactly these nodes take steps. */
  lemma RunnableIffAgentOrConnector(nodes: seq<Node>, configs: seq<AgentConfig>, i: nat)
    requires Distinct(Ids(nodes)) && Configured(nodes, configs) && i < |nodes|
    ensures Runnable(nodes, configs, nodes[i].id) <==> TakesStep(nodes[i])
  {
    var id := nodes[i].id;
    LastConfigExists(configs, id);
    assert nodes[i] in nodes;
    if id.Present() {
      NodeByDistinctId(nodes, i);
    }
    if id in AgentNodes(nodes) {
      var n :| n in nodes && n.IsAgent() && n.id == id;
      var j :| 0 <= j < |nodes| && nodes[j] == n;
      assert Ids(nodes)[j] == Ids(nodes)[i];
      assert j == i;
    }
  }

  lemma {:induction false} ExplainedNodes(job: Job, processed: seq<Id>, logs: seq<LogRow>)
    requires Explained(job, processed, logs)
    ensures NodesOf(logs) == Runnables(job.nodes, job.configs, processed)
    decreases |processed|
  {
    if processed != [] {
      var init, node := processed[..|processed| - 1], processed[|processed| - 1];
      match Turn(job, node, job.env(|processed|))
      case Did(_, _, _, _) =>
        ExplainedNodes(job, init, logs[..|logs| - 1]);
        assert logs == logs[..|logs| - 1] + [logs[|logs| - 1]];
        assert NodesOf(logs) == NodesOf(logs[..|logs| - 1]) + [node];
      case PassOver => ExplainedNodes(job, init, logs);
      case _ =>
    }
  }

  /** A completed run of a definition the builder accepts as non-cyclic: every agent and every connector
      with an id has exactly one log row, no other node has one, rows are numbered 1..n, and each row comes
      after the rows of all its predecessors. */
  lemma CompletedRunCoversGraph(job: Job, start: seq<Id>, processed: seq<Id>, left: seq<Id>,
                                done: seq<LogRow>, run: Run, tail: Tail)
    requires !job.cyclic && Accepted(job.nodes, job.edges, job.configs, false) && Distinct(Ids(job.nodes))
    requires StartQueue(job, start)
    requires Concluded(job, start, processed, left, done, run, tail, true) && run.status == Completed
    ensures forall n :: n in job.nodes ==>
      multiset(NodesOf(run.logs))[n.id] == if TakesStep(n) then 1 else 0
    ensures StepsFollowArcs(job.nodes, job.configs, Arcs(ToSet(Ids(job.nodes)), job.edges), NodesOf(run.logs))
    ensures Numbered(run.logs)
  {
    CompletedLog(job, start, processed, left, done, run, tail);
    AcceptedMeans(job, start);
    hide Concluded, Accepted, Configured, TopologicalSort.Scheduled;
    EveryStepOnce(job.nodes, job.edges, job.configs, start);
  }

  lemma CompletedLog(job: Job, start: seq<Id>, processed: seq<Id>, left: seq<Id>, done: seq<LogRow>, run: Run, tail: Tail)
    requires !job.cyclic && Concluded(job, start, processed, left, done, run, tail, true) && run.status == Completed
    ensures NodesOf(run.logs) == Runnables(job.nodes, job.configs, start) && Numbered(run.logs)
  {
    StreamIsWellFormed(job, start, processed, left, done, run, tail);
    NeverStopsCompleted(job, left, processed);
    assert left == [] ==> processed + left == processed;
    ExplainedNodes(job, processed, done);
  }

  lemma NeverStopsCompleted(job: Job, left: seq<Id>, processed: seq<Id>)
    ensures left != [] ==>
      var v := Turn(job, left[0], job.env(|processed| + 1));
      v.Stops? ==> v.status in {Failed, Cancelled}
  {
  }

  lemma AcceptedMeans(job: Job, start: seq<Id>)
    requires !job.cyclic && Accepted(job.nodes, job.edges, job.configs, false) && StartQueue(job, start)
    ensures !Cyclic(Arcs(ToSet(Ids(job.nodes)), job.edges)) && Configured(job.nodes, job.configs)
    ensures TopologicalSort.Scheduled(Ids(job.nodes), job.edges, start)
  {
    hide TopologicalSort.Scheduled, Arcs, Cyclic, Configured;
    AcceptedPasses(job);
  }

  lemma AcceptedPasses(job: Job)
    requires Accepted(job.nodes, job.edges, job.configs, false)
    ensures !Cyclic(Arcs(ToSet(Ids(job.nodes)), job.edges)) && Configured(job.nodes, job.configs)
  {
    hide Arcs, Cyclic, Configured, NoOrphans, SizeTest, ConnectorsComplete, PromptsFilled;
    assert Passes(job.nodes, job.edges, job.configs, false, CycleOk);
    assert Passes(job.nodes, job.edges, job.configs, false, ConfigsPresent);
  }

  /** The schedule of an acyclic configured graph takes every agent and connector once, along the arcs. */
  lemma EveryStepOnce(nodes: seq<Node>, edges: seq<Edge>, configs: seq<AgentConfig>, order: seq<Id>)
    requires Distinct(Ids(nodes)) && Configured(nodes, configs) && !Cyclic(Arcs(ToSet(Ids(nodes)), edges))
    requires TopologicalSort.Scheduled(Ids(nodes), edges, order)
    ensures forall n :: n in nodes ==>
      multiset(Runnables(nodes, configs, order))[n.id] == if TakesStep(n) then 1 else 0
    ensures StepsFollowArcs(nodes, configs, Arcs(ToSet(Ids(nodes)), edges), Runnables(nodes, configs, order))
  {
    hide *;
    TopologicalSort.ScheduledIsPermutation(Ids(nodes), edges, order);
    TopologicalSort.ScheduleTopologicalIffAcyclic(Ids(nodes), edges, order);
    RunnablesTopological(nodes, configs, Arcs(ToSet(Ids(nodes)), edges), order);
    EachOnce(nodes, configs, order);
  }

  lemma EachOnce(nodes: seq<Node>, configs: seq<AgentConfig>, order: seq<Id>)
    requires Distinct(Ids(nodes)) && Configured(nodes, configs) && multiset(order) == multiset(Ids(nodes))
    ensures forall n :: n in nodes ==>
      multiset(Runnables(nodes, configs, order))[n.id] == if TakesStep(n) then 1 else 0
  {
    SamePermutation(Ids(nodes), order);
    RunnablesMembers(nodes, configs, order);
    TopologicalSort.MultisetOfDistinct(Runnables(nodes, configs, order));
    hide Runnable, Runnables;
    forall n | n in nodes
      ensures multiset(Runnables(nodes, configs, order))[n.id] == if TakesStep(n) then 1 else 0
    {
      var i :| 0 <= i < |nodes| && nodes[i] == n;
      RunnableIffAgentOrConnector(nodes, configs, i);
      assert Ids(nodes)[i] == n.id;
    }
  }

  ghost predicate Follows(edges: seq<Edge>, u: Id, v: Id) {
    exists e :: e in edges && e.source == u && e.target == v
  }

  /** The turn taken at position i of a walk completed a step. */
  ghost predicate DidAt(job: Job, s: seq<Id>, i: nat)
    requires i < |s|
  {
    Turn(job, s[i], job.env(i + 1)).Did?
  }

  lemma {:induction false} AllDidAreLogged(job: Job, processed: seq<Id>, logs: seq<LogRow>)
    requires Explained(job, processed, logs)
    requires forall i :: 0 <= i < |processed| ==> DidAt(job, processed, i)
    ensures NodesOf(logs) == processed
    decreases |processed|
  {
    if processed != [] {
      var init, last := processed[..|processed| - 1], |processed| - 1;
      assert DidAt(job, processed, last);
      forall i | 0 <= i < |init|
        ensures DidAt(job, init, i)
      {
        assert DidAt(job, processed, i) && init[i] == processed[i];
      }
      AllDidAreLogged(job, init, logs[..|logs| - 1]);
      assert logs == logs[..|logs| - 1] + [logs[|logs| - 1]];
    }
  }

  /** All but the last popped id of a cyclic run took steps, and so did the last when another is queued. */
  lemma CyclicLogIsPrefix(job: Job, start: seq<Id>, processed: seq<Id>, queue: seq<Id>, logs: seq<LogRow>)
    requires job.cyclic && Progress(job, start, processed, queue, logs)
    ensures NodesOf(logs) <= processed && (queue != [] ==> NodesOf(logs) == processed)
  {
    hide Routing.Routes;
    var s := processed + queue;
    forall i | 0 <= i < |processed| && i + 1 < |s|
      ensures DidAt(job, processed, i)
    {
      var j := i + 1;
      assert Chosen(job, j, s[i], s[j]);
      assert s[i] == processed[i];
    }
    hide Trail, Chosen;
    if queue != [] || processed == [] {
      AllDidAreLogged(job, processed, logs);
    } else {
      AllButLastLogged(job, processed, logs);
    }
  }

  lemma AllButLastLogged(job: Job, processed: seq<Id>, logs: seq<LogRow>)
    requires processed != [] && Explained(job, processed, logs)
    requires forall i :: 0 <= i < |processed| - 1 ==> DidAt(job, processed, i)
    ensures NodesOf(logs) <= processed
  {
    var init, last := processed[..|processed| - 1], processed[|processed| - 1];
    forall i | 0 <= i < |init|
      ensures DidAt(job, init, i)
    {
      assert DidAt(job, processed, i) && init[i] == processed[i];
    }
    match Turn(job, last, job.env(|processed|))
    case Did(_, _, _, _) =>
      AllDidAreLogged(job, init, logs[..|logs| - 1]);
      assert logs == logs[..|logs| - 1] + [logs[|logs| - 1]];
      assert NodesOf(logs) == processed;
    case PassOver => AllDidAreLogged(job, init, logs);
    case _ =>
  }

  /** The rows of a cyclic run, a failed connector's included, walk along real edges from the entry
      node, hop by hop as the routing rules choose, and there are at most MAX_ITERATIONS of them. */
  lemma CyclicLogWalksEdges(job: Job, start: seq<Id>, processed: seq<Id>, left: seq<Id>, done: seq<LogRow>, run: Run, tail: Tail)
    requires job.cyclic && Concluded(job, start, processed, left, done, run, tail, true)
    ensures |run.logs| <= MAX_ITERATIONS
    ensures run.logs != [] ==> start != [] && run.logs[0].node == start[0]
    ensures Trail(job, start, NodesOf(run.logs))
    ensures forall i, j :: 0 <= i < j < |run.logs| && j == i + 1 ==> Follows(job.edges, run.logs[i].node, run.logs[j].node)
  {
    CyclicLogIsPrefix(job, start, processed, left, done);
    var s, logged := processed + left, NodesOf(run.logs);
    assert logged <= s by {
      if |run.logs| > |done| {
        assert run.logs == done + [run.logs[|done|]];
        assert logged == NodesOf(done) + [left[0]];
        assert s[|processed|] == left[0];
      } else {
        assert NodesOf(done) == logged;
      }
    }
    hide Explained, Exhausted, Routing.Routes;
    assert forall i :: 0 <= i < |logged| ==> logged[i] == s[i];
    forall i, j | 0 <= i < j < |logged| && j == i + 1
      ensures Chosen(job, j, logged[i], logged[j]) && Follows(job.edges, logged[i], logged[j])
    {
      assert Chosen(job, j, s[i], s[j]);
      ChosenIsEdge(job, j, logged[i], logged[j]);
    }
  }

  /** A cyclic run that completes was stopped by a dead end; when every edge names its target, that is a
      node without an agent or connector step, or one that no edge leaves. */
  lemma CompletedCycleEndsInDeadEnd(job: Job, start: seq<Id>, processed: seq<Id>, left: seq<Id>, done: seq<LogRow>,
                                    run: Run, tail: Tail)
    requires job.cyclic && start != [] && Concluded(job, start, processed, left, done, run, tail, true)
    requires run.status == Completed
    ensures processed != [] && DeadEnd(job, |processed|, processed[|processed| - 1])
    ensures (forall e :: e in job.edges ==> e.target.Present()) ==>
      var last := processed[|processed| - 1];
      Turn(job, last, job.env(|processed|)) == PassOver || Routing.Outgoing(job.edges, last) == []
  {
    NeverStopsCompleted(job, left, processed);
    hide Explained, Trail;
    assert left == [];
    assert processed + [] == processed;
  }

  lemma ChosenIsEdge(job: Job, i: nat, u: Id, v: Id)
    requires Chosen(job, i, u, v)
    ensures Follows(job.edges, u, v)
  {
    var outgoing := Routing.Outgoing(job.edges, u);
    var e :| e in outgoing && e.target == v;
  }

  lemma SamePermutation(ids: seq<Id>, order: seq<Id>)
    requires Distinct(ids) && multiset(order) == multiset(ids)
    ensures Distinct(order) && forall x :: x in order <==> x in ids
  {
    TopologicalSort.MultisetOfDistinct(ids);
    forall x
      ensures x in order <==> x in ids
    {
      assert x in order <==> x in multiset(order);
    }
    TopologicalSort.OnceIsDistinct(order);
  }
}
