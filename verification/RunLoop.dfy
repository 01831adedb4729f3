/** One workflow run: the executor's main loop, its log rows, its token totals and its event stream. */
module RunLoop {
  import opened Common
  import opened Graph
  import opened WorkflowValidation
  import TopologicalSort
  import Routing

  const MAX_ITERATIONS := 10

  datatype LogKind = AgentStep | ConnectorStep | ConnectorFailure(retryable: bool)

  datatype LogRow = LogRow(step: nat, node: Id, tokens: nat, kind: LogKind)

  datatype Event =
    | StepStart(step: nat)
    | StepComplete(step: nat, tokens: nat)
    | Failure(step: nat)
    | ExecutionComplete(status: Status, totalTokens: nat)

  datatype AgentOutcome =
    | AgentResult(inputTokens: nat, outputTokens: nat, action: string, reasoning: string)
    | AgentError
    | AgentRaises

  datatype ConnectorOutcome = ConnectorOk | ConnectorError(retryable: bool) | ConnectorRaises

  /** What the surroundings supply during one turn of the loop: the cancel flag, the step's
      outcome, and the tenant's budget as read at the pre-check and as it stands at the debit.
      Other executions may have spent tokens between the two. */
  datatype Tick = Tick(cancelled: bool, usedAtCheck: nat, budgetAtCheck: nat, usedAtDebit: nat, budgetAtDebit: nat,
                       agent: AgentOutcome, connector: ConnectorOutcome)

  /** What the run finds before its loop. */
  datatype Launch = Launch(workflowFound: bool, tenantFound: bool, used: nat, budget: nat, status: Status)

  /** The execution row with its log rows, and the events broadcast so far. */
  datatype Run = Run(status: Status, logs: seq<LogRow>, totalTokens: nat, events: seq<Event>)

  /** A run to carry out: the definition, its configs, its pattern, and what each turn of the loop meets. */
  datatype Job = Job(nodes: seq<Node>, edges: seq<Edge>, configs: seq<AgentConfig>, cyclic: bool, env: nat -> Tick)

  datatype Flow = Next | Stopped | Raised

  function NodesOf(logs: seq<LogRow>): (r: seq<Id>)
    ensures |r| == |logs| && forall i :: 0 <= i < |r| ==> r[i] == logs[i].node
  {
    seq(|logs|, i requires 0 <= i < |logs| => logs[i].node)
  }

  function Tokens(logs: seq<LogRow>): nat {
    if logs == [] then 0 else Tokens(logs[..|logs| - 1]) + logs[|logs| - 1].tokens
  }

  /** The paired events of completed steps. */
  function StepEvents(logs: seq<LogRow>): seq<Event> {
    if logs == [] then []
    else
      StepEvents(logs[..|logs| - 1]) + [StepStart(|logs|), StepComplete(|logs|, logs[|logs| - 1].tokens)]
  }

  ghost predicate Numbered(logs: seq<LogRow>) {
    forall i :: 0 <= i < |logs| ==> logs[i].step == i + 1
  }

  /** Between two steps the events and the persisted total say what the log rows say. */
  ghost predicate Boundary(run: Run) {
    && run.status == Running
    && run.events == StepEvents(run.logs)
    && run.totalTokens == Tokens(run.logs)
  }

  /** How a stream ends after its completed steps: an unmatched start, an error, the final event. */
  datatype Tail = Tail(open: bool, failure: Option<nat>, last: Option<Event>) {
    function Events(n: nat): seq<Event> {
      (if open then [StepStart(n + 1)] else [])
      + (if failure.Some? then [Failure(failure.value)] else [])
      + (if last.Some? then [last.value] else [])
    }
  }

  /** `node_by_id`: ids that are absent or empty have no entry, and the last node of an id wins. */
  function NodeById(nodes: seq<Node>, id: Id): Option<Node> {
    if nodes == [] || !id.Present() then None
    else if nodes[|nodes| - 1].id == id then Some(nodes[|nodes| - 1])
    else NodeById(nodes[..|nodes| - 1], id)
  }

  predicate RunsAsConnector(nodes: seq<Node>, id: Id) {
    NodeById(nodes, id).Some? && NodeById(nodes, id).value.IsConnector()
  }

  function LastConfig(configs: seq<AgentConfig>, id: Id): Option<AgentConfig> {
    if configs == [] then None
    else if configs[|configs| - 1].nodeId == id then Some(configs[|configs| - 1])
    else LastConfig(configs[..|configs| - 1], id)
  }

  /** `agent_config_map`, which the compiler fills for agent nodes only. */
  function ConfigOf(nodes: seq<Node>, configs: seq<AgentConfig>, id: Id): Option<AgentConfig> {
    if id in AgentNodes(nodes) then LastConfig(configs, id) else None
  }

  /** The node takes a step; every other queued node is passed over without one. */
  predicate Runnable(nodes: seq<Node>, configs: seq<AgentConfig>, id: Id) {
    RunsAsConnector(nodes, id) || ConfigOf(nodes, configs, id).Some?
  }

  function Runnables(nodes: seq<Node>, configs: seq<AgentConfig>, ids: seq<Id>): seq<Id> {
    if ids == [] then []
    else
      Runnables(nodes, configs, ids[..|ids| - 1])
      + if Runnable(nodes, configs, ids[|ids| - 1]) then [ids[|ids| - 1]] else []
  }

  /** What one turn of the loop must do with a node. */
  datatype Verdict =
    | CancelRun
    | PassOver
    | Did(tokens: nat, kind: LogKind, action: string, reasoning: string)
    | Stops(status: Status, failureRow: Option<LogKind>)
    | Raises

  function ConnectorVerdict(tick: Tick): Verdict {
    match tick.connector
    case ConnectorOk => Did(0, ConnectorStep, "connector_call", "")
    case ConnectorError(retryable) => Stops(Failed, Some(ConnectorFailure(retryable)))
    case ConnectorRaises => Raises
  }

  function AgentVerdict(maxTokens: nat, tick: Tick): Verdict {
    if tick.usedAtCheck + maxTokens > tick.budgetAtCheck then Stops(Cancelled, None)
    else
      match tick.agent
      case AgentRaises => Raises
      case AgentError => Stops(Failed, None)
      case AgentResult(i, o, action, reasoning) =>
        if tick.usedAtDebit + (i + o) > tick.budgetAtDebit then Stops(Cancelled, None)
        else Did(i + o, AgentStep, action, reasoning)
  }

  /** The cancel flag first, then the node's kind, then the step's own outcome. */
  function Turn(job: Job, node: Id, tick: Tick): Verdict {
    if tick.cancelled then CancelRun
    else if RunsAsConnector(job.nodes, node) then ConnectorVerdict(tick)
    else
      match ConfigOf(job.nodes, job.configs, node)
      case Some(config) => AgentVerdict(config.maxTokens, tick)
      case None => PassOver
  }

  function Finish(run: Run, status: Status, failure: Option<nat>): Run {
    run.(status := status,
         events := run.events + (if failure.Some? then [Failure(failure.value)] else [])
                   + [ExecutionComplete(status, run.totalTokens)])
  }

  /** What a step leaves behind when the verdict is v: a row with its paired events, or an open step
      and how the run ends. */
  ghost predicate StepResult(run0: Run, node: Id, v: Verdict, run: Run, flow: Flow) {
    var step := |run0.logs| + 1;
    match v
    case Did(tokens, kind, _, _) =>
      && flow == Next
      && run == run0.(logs := run0.logs + [LogRow(step, node, tokens, kind)],
                      totalTokens := run0.totalTokens + tokens,
                      events := run0.events + [StepStart(step), StepComplete(step, tokens)])
    case Stops(status, row) =>
      && flow == Stopped
      && run.status == status && run.totalTokens == run0.totalTokens
      && run.logs == run0.logs + (if row.Some? then [LogRow(step, node, 0, row.value)] else [])
      && run.events == run0.events
                       + Tail(true, Some(step), Some(ExecutionComplete(status, run0.totalTokens))).Events(step - 1)
    case Raises =>
      flow == Raised && run == run0.(events := run0.events + [StepStart(step)])
    case _ => false
  }

  /** The step is left open, with an error and the final event; nothing was spent. */
  ghost predicate StopsIn(run0: Run, step: nat, status: Status, run: Run) {
    && run.status == status && run.totalTokens == run0.totalTokens
    && run.events == run0.events + [StepStart(step), Failure(step), ExecutionComplete(status, run0.totalTokens)]
  }

  /** An agent step: pre-check, call, conditional debit, one log row and the new total in one commit. */
  method RunAgentStep(run0: Run, node: Id, step: nat, maxTokens: nat, tick: Tick) returns (run: Run, flow: Flow)
    requires step == |run0.logs| + 1
    ensures StepResult(run0, node, AgentVerdict(maxTokens, tick), run, flow)
    ensures
      if tick.usedAtCheck + maxTokens > tick.budgetAtCheck then
        flow == Stopped && StopsIn(run0, step, Cancelled, run) && run.logs == run0.logs
      else
        match tick.agent
        case AgentRaises => flow == Raised && run == run0.(events := run0.events + [StepStart(step)])
        case AgentError => flow == Stopped && StopsIn(run0, step, Failed, run) && run.logs == run0.logs
        case AgentResult(i, o, _, _) =>
          if tick.usedAtDebit + i + o > tick.budgetAtDebit then
            flow == Stopped && StopsIn(run0, step, Cancelled, run) && run.logs == run0.logs
          else
            && flow == Next && run.status == run0.status
            && run.logs == run0.logs + [LogRow(step, node, i + o, AgentStep)] && run.totalTokens == run0.totalTokens + i + o
            && run.events == run0.events + [StepStart(step), StepComplete(step, i + o)]
  {
    run := run0.(events := run0.events + [StepStart(step)]);
    if tick.usedAtCheck + maxTokens > tick.budgetAtCheck {
      return Finish(run, Cancelled, Some(step)), Stopped;
    }
    if tick.agent.AgentRaises? {
      return run, Raised;
    }
    if tick.agent.AgentError? {
      return Finish(run, Failed, Some(step)), Stopped;
    }
    var totalTokens := tick.agent.inputTokens + tick.agent.outputTokens;
    if tick.usedAtDebit + totalTokens > tick.budgetAtDebit {
      return Finish(run, Cancelled, Some(step)), Stopped;
    }
    run := run.(logs := run.logs + [LogRow(step, node, totalTokens, AgentStep)],
                totalTokens := run.totalTokens + totalTokens);
    run := run.(events := run.events + [StepComplete(step, totalTokens)]);
    flow := Next;
  }

  method RunConnectorStep(run0: Run, node: Id, step: nat, tick: Tick) returns (run: Run, flow: Flow)
    requires step == |run0.logs| + 1
    ensures StepResult(run0, node, ConnectorVerdict(tick), run, flow)
    ensures
      match tick.connector
      case ConnectorRaises => flow == Raised && run == run0.(events := run0.events + [StepStart(step)])
      case ConnectorError(retryable) =>
        && flow == Stopped && StopsIn(run0, step, Failed, run)
        && run.logs == run0.logs + [LogRow(step, node, 0, ConnectorFailure(retryable))]
      case ConnectorOk =>
        && flow == Next && run.status == run0.status
        && run.logs == run0.logs + [LogRow(step, node, 0, ConnectorStep)] && run.totalTokens == run0.totalTokens
        && run.events == run0.events + [StepStart(step), StepComplete(step, 0)]
  {
    run := run0.(events := run0.events + [StepStart(step)]);
    if tick.connector.ConnectorRaises? {
      return run, Raised;
    }
    if tick.connector.ConnectorError? {
      run := run.(logs := run.logs + [LogRow(step, node, 0, ConnectorFailure(tick.connector.retryable))]);
      return Finish(run, Failed, Some(step)), Stopped;
    }
    run := run.(logs := run.logs + [LogRow(step, node, 0, ConnectorStep)]);
    run := run.(events := run.events + [StepComplete(step, 0)]);
    flow := Next;
  }

  /** The log rows are what the turns over the popped ids call for, one turn per id. */
  ghost predicate Explained(job: Job, processed: seq<Id>, logs: seq<LogRow>) {
    if processed == [] then logs == []
    else
      var init, node := processed[..|processed| - 1], processed[|processed| - 1];
      match Turn(job, node, job.env(|processed|))
      case Did(tokens, kind, _, _) =>
        && logs != [] && Explained(job, init, logs[..|logs| - 1])
        && logs[|logs| - 1] == LogRow(|logs|, node, tokens, kind)
      case PassOver => Explained(job, init, logs)
      case _ => false
  }

  /** In a cyclic run, turn i of the loop was at u and its result routes to v. */
  ghost predicate Chosen(job: Job, i: nat, u: Id, v: Id) {
    match Turn(job, u, job.env(i))
    case Did(_, _, action, reasoning) => v.Present() && Routing.Routes(Routing.Outgoing(job.edges, u), action, reasoning, v)
    case _ => false
  }

  /** A walk from the entry node, each hop the one the routing rules choose. */
  ghost predicate Trail(job: Job, entry: seq<Id>, s: seq<Id>) {
    && (s != [] ==> entry != [] && s[0] == entry[0])
    && forall i, j :: 0 <= i < j < |s| && j == i + 1 ==> Chosen(job, j, s[i], s[j])
  }

  /** What the loop keeps about the ids it has popped, those still queued, and the log. */
  ghost predicate Progress(job: Job, start: seq<Id>, processed: seq<Id>, queue: seq<Id>, logs: seq<LogRow>) {
    && Explained(job, processed, logs)
    && if job.cyclic then
         |queue| <= 1 && |processed| <= MAX_ITERATIONS && start <= processed + queue && Trail(job, start, processed + queue)
       else processed + queue == start
  }

  /** A cyclic run's node leads nowhere: it was passed over, or the route its result chose has no usable target,
      be it that no edge leaves the node or that the chosen edge names none. */
  ghost predicate DeadEnd(job: Job, i: nat, u: Id) {
    match Turn(job, u, job.env(i))
    case Did(_, _, action, reasoning) =>
      exists v :: Routing.Routes(Routing.Outgoing(job.edges, u), action, reasoning, v) && !v.Present()
    case PassOver => true
    case _ => false
  }

  /** A cyclic run stops of itself only at a dead end. */
  ghost predicate Exhausted(job: Job, processed: seq<Id>) {
    job.cyclic && processed != [] ==> DeadEnd(job, |processed|, processed[|processed| - 1])
  }

  /** How a run ends, given the ids it popped and those left: with nothing left it is completed; at the
      iteration cap it fails and reports zero; otherwise the next id's turn says how. An exception is
      `handled` by failing the run. */
  ghost predicate Concluded(job: Job, start: seq<Id>, processed: seq<Id>, queue: seq<Id>, done: seq<LogRow>,
                            run: Run, tail: Tail, handled: bool) {
    var n := |processed| + 1;
    && Progress(job, start, processed, queue, done)
    && run.events == StepEvents(done) + tail.Events(|done|)
    && run.totalTokens == Tokens(done)
    && if queue == [] then
         && run.status == Completed && run.logs == done && Exhausted(job, processed)
         && tail == Tail(false, None, Some(ExecutionComplete(Completed, run.totalTokens)))
       else if job.cyclic && n > MAX_ITERATIONS then
         && run.status == Failed && run.logs == done
         && tail == Tail(false, Some(|done|), Some(ExecutionComplete(Failed, 0)))
       else
         match Turn(job, queue[0], job.env(n))
         case CancelRun =>
           && run.status == Cancelled && run.logs == done
           && tail == Tail(false, None, Some(ExecutionComplete(Cancelled, run.totalTokens)))
         case Stops(status, row) =>
           && run.status == status
           && run.logs == done + (if row.Some? then [LogRow(|done| + 1, queue[0], 0, row.value)] else [])
           && tail == Tail(true, Some(|done| + 1), Some(ExecutionComplete(status, run.totalTokens)))
         case Raises =>
           && run.logs == done
           && if handled then
                run.status == Failed && tail == Tail(true, Some(0), Some(ExecutionComplete(Failed, run.totalTokens)))
              else run.status == Running && tail == Tail(true, None, None)
         case _ => false
  }

  lemma ExplainedPush(job: Job, processed: seq<Id>, node: Id, logs: seq<LogRow>, row: LogRow)
    requires Explained(job, processed, logs)
    ensures
      var v := Turn(job, node, job.env(|processed| + 1));
      && (v.PassOver? ==> Explained(job, processed + [node], logs))
      && (v.Did? && row == LogRow(|logs| + 1, node, v.tokens, v.kind) ==> Explained(job, processed + [node], logs + [row]))
  {
    assert (processed + [node])[..|processed|] == processed;
    assert (logs + [row])[..|logs|] == logs;
  }

  lemma StepEventsPush(logs: seq<LogRow>, row: LogRow)
    ensures StepEvents(logs + [row]) == StepEvents(logs) + [StepStart(|logs| + 1), StepComplete(|logs| + 1, row.tokens)]
    ensures Tokens(logs + [row]) == Tokens(logs) + row.tokens
  {
    assert (logs + [row])[..|logs|] == logs;
  }

  /** A finished step moves the boundary on; in a cyclic run nothing is queued until the route is known. */
  lemma AfterStep(job: Job, start: seq<Id>, processed: seq<Id>, queue: seq<Id>, before: Run, run: Run, v: Verdict)
    requires Boundary(before) && Progress(job, start, processed, queue, before.logs) && queue != []
    requires job.cyclic ==> |processed| < MAX_ITERATIONS
    requires v == Turn(job, queue[0], job.env(|processed| + 1)) && StepResult(before, queue[0], v, run, Next)
    ensures Boundary(run) && |run.logs| == |before.logs| + 1
    ensures Progress(job, start, processed + [queue[0]], queue[1..], run.logs)
    ensures v.Did? && (job.cyclic ==> queue[1..] == [])
  {
    hide Turn, Trail;
    var row := LogRow(|before.logs| + 1, queue[0], v.tokens, v.kind);
    ExplainedPush(job, processed, queue[0], before.logs, row);
    StepEventsPush(before.logs, row);
    hide Explained;
    assert processed + [queue[0]] + queue[1..] == processed + queue;
  }

  lemma AfterPassOver(job: Job, start: seq<Id>, processed: seq<Id>, queue: seq<Id>, logs: seq<LogRow>)
    requires Progress(job, start, processed, queue, logs) && queue != []
    requires job.cyclic ==> |processed| < MAX_ITERATIONS
    requires Turn(job, queue[0], job.env(|processed| + 1)) == PassOver
    ensures Progress(job, start, processed + [queue[0]], queue[1..], logs)
    ensures job.cyclic ==> queue[1..] == []
    ensures Exhausted(job, processed + [queue[0]])
  {
    hide Trail;
    ExplainedPush(job, processed, queue[0], logs, LogRow(0, Missing, 0, AgentStep));
    hide Explained;
    assert processed + [queue[0]] + queue[1..] == processed + queue;
  }

  /** The routed successor joins the queue of a cyclic run; without one the run is exhausted. */
  lemma AfterRoute(job: Job, start: seq<Id>, processed: seq<Id>, node: Id, logs: seq<LogRow>, next: Id, v: Verdict)
    requires job.cyclic && Progress(job, start, processed + [node], [], logs)
    requires v == Turn(job, node, job.env(|processed| + 1)) && v.Did?
    requires Routing.Routes(Routing.Outgoing(job.edges, node), v.action, v.reasoning, next)
    ensures next.Present() ==> Progress(job, start, processed + [node], [next], logs)
    ensures !next.Present() ==> Exhausted(job, processed + [node])
  {
    hide Explained, Turn, Routing.Routes;
    var s := processed + [node];
    assert s + [] == s && s[|s| - 1] == node;
    if next.Present() {
      assert Chosen(job, |s|, node, next);
      hide Chosen;
      assert forall i :: 0 <= i < |s| ==> (s + [next])[i] == s[i];
    }
  }

  method NextInCycle(job: Job, ghost start: seq<Id>, ghost processed: seq<Id>, node: Id, ghost logs: seq<LogRow>,
                     adjacency: map<Id, seq<Edge>>, action: string, reasoning: string) returns (next: seq<Id>)
    requires job.cyclic && Progress(job, start, processed + [node], [], logs)
    requires
      var v := Turn(job, node, job.env(|processed| + 1));
      v.Did? && v.action == action && v.reasoning == reasoning
    requires forall u :: Routing.Outgoing(job.edges, u) == if u in adjacency then adjacency[u] else []
    ensures Progress(job, start, processed + [node], next, logs)
    ensures next == [] ==> Exhausted(job, processed + [node])
  {
    hide Progress, Turn, Exhausted, Routing.Routes;
    var outgoing := if node in adjacency then adjacency[node] else [];
    var target := Routing.ResolveNextNode(outgoing, action, reasoning);
    AfterRoute(job, start, processed, node, logs, target, Turn(job, node, job.env(|processed| + 1)));
    next := [];
    if target.Present() {
      next := [target];
    }
  }

  lemma Begin(job: Job, start: seq<Id>)
    requires job.cyclic ==> |start| <= 1
    ensures Boundary(Run(Running, [], 0, []))
    ensures Progress(job, start, [], start, []) && Exhausted(job, [])
  {
    assert [] + start == start;
  }

  lemma ProgressBounds(job: Job, start: seq<Id>, processed: seq<Id>, queue: seq<Id>, logs: seq<LogRow>)
    requires Progress(job, start, processed, queue, logs)
    ensures job.cyclic ==> |processed| <= MAX_ITERATIONS && |queue| <= 1
  {
  }

  lemma EndCapped(job: Job, start: seq<Id>, processed: seq<Id>, queue: seq<Id>, before: Run, run: Run)
    requires Boundary(before) && Progress(job, start, processed, queue, before.logs) && queue != []
    requires job.cyclic && |processed| + 1 > MAX_ITERATIONS
    requires run == before.(status := Failed,
                            events := before.events + [Failure(|before.logs|), ExecutionComplete(Failed, 0)])
    ensures Concluded(job, start, processed, queue, before.logs, run,
                      Tail(false, Some(|before.logs|), Some(ExecutionComplete(Failed, 0))), false)
  {
    hide Progress;
  }

  lemma EndCancelled(job: Job, start: seq<Id>, processed: seq<Id>, queue: seq<Id>, before: Run, run: Run)
    requires Boundary(before) && Progress(job, start, processed, queue, before.logs) && queue != []
    requires !(job.cyclic && |processed| + 1 > MAX_ITERATIONS) && job.env(|processed| + 1).cancelled
    requires run == Finish(before, Cancelled, None)
    ensures Concluded(job, start, processed, queue, before.logs, run,
                      Tail(false, None, Some(ExecutionComplete(Cancelled, run.totalTokens))), false)
  {
    hide Progress;
  }

  lemma EndCompleted(job: Job, start: seq<Id>, processed: seq<Id>, before: Run, run: Run)
    requires Boundary(before) && Progress(job, start, processed, [], before.logs) && Exhausted(job, processed)
    requires run == Finish(before, Completed, None)
    ensures Concluded(job, start, processed, [], before.logs, run,
                      Tail(false, None, Some(ExecutionComplete(Completed, run.totalTokens))), false)
  {
    hide Progress, Exhausted;
  }

  /** The tail of a run that leaves in the middle of a step. */
  function StepTail(run: Run, flow: Flow, step: nat): Tail {
    if flow == Stopped then Tail(true, Some(step), Some(ExecutionComplete(run.status, run.totalTokens)))
    else Tail(true, None, None)
  }

  lemma EndInStep(job: Job, start: seq<Id>, processed: seq<Id>, queue: seq<Id>, before: Run, run: Run, flow: Flow, v: Verdict)
    requires Boundary(before) && Progress(job, start, processed, queue, before.logs) && queue != []
    requires !(job.cyclic && |processed| + 1 > MAX_ITERATIONS)
    requires v == Turn(job, queue[0], job.env(|processed| + 1))
    requires flow != Next && StepResult(before, queue[0], v, run, flow)
    ensures Concluded(job, start, processed, queue, before.logs, run, StepTail(run, flow, |before.logs| + 1), false)
    ensures flow == Raised <==> v == Raises
  {
    hide Progress, Turn;
  }

  /** The main loop, from a running execution with nothing logged. */
  method RunQueue(job: Job, start: seq<Id>)
    returns (run: Run, raised: bool,
             ghost processed: seq<Id>, ghost left: seq<Id>, ghost done: seq<LogRow>, ghost tail: Tail)
    requires job.cyclic ==> |start| <= 1
    ensures Concluded(job, start, processed, left, done, run, tail, false)
    ensures raised <==> run.status == Running
  {
    hide *;
    run := Run(Running, [], 0, []);
    var queue, step, iteration := start, 0, 0;
    var adjacency := Routing.BuildEdgeAdjacency(job.edges);
    processed := [];
    Begin(job, start);
    while queue != []
      invariant Boundary(run) && step == |run.logs| && iteration == |processed|
      invariant Progress(job, start, processed, queue, run.logs)
      invariant queue == [] ==> Exhausted(job, processed)
      decreases if job.cyclic then MAX_ITERATIONS + 1 - iteration else |queue|
    {
      var node := queue[0];
      ghost var waiting, before := queue, run;
      queue := queue[1..];
      iteration := iteration + 1;
      var tick := job.env(iteration);
      ProgressBounds(job, start, processed, waiting, run.logs);
      if job.cyclic && iteration > MAX_ITERATIONS {
        run := run.(status := Failed, events := run.events + [Failure(step), ExecutionComplete(Failed, 0)]);
        EndCapped(job, start, processed, waiting, before, run);
        left, done, tail := waiting, before.logs, Tail(false, Some(step), Some(ExecutionComplete(Failed, 0)));
        return run, false, processed, left, done, tail;
      }
      if tick.cancelled {
        run := Finish(run, Cancelled, None);
        EndCancelled(job, start, processed, waiting, before, run);
        FinishStatus(before, Cancelled);
        left, done, tail := waiting, before.logs, Tail(false, None, Some(ExecutionComplete(Cancelled, run.totalTokens)));
        return run, false, processed, left, done, tail;
      }
      ghost var v := Turn(job, node, tick);
      TurnCases(job, node, tick);
      var flow: Flow;
      if RunsAsConnector(job.nodes, node) {
        step := step + 1;
        run, flow := RunConnectorStep(run, node, step, tick);
        StepCases(before, node, v, run, flow);
        if flow != Next {
          EndInStep(job, start, processed, waiting, before, run, flow, v);
          left, done, tail := waiting, before.logs, StepTail(run, flow, step);
          return run, flow == Raised, processed, left, done, tail;
        }
        AfterStep(job, start, processed, waiting, before, run, v);
        if job.cyclic {
          var next := NextInCycle(job, start, processed, node, run.logs, adjacency, "connector_call", "");
          assert queue + next == next;
          queue := queue + next;
        } else {
          LinearNeverExhausts(job, processed + [node]);
        }
      } else {
        var config := ConfigOf(job.nodes, job.configs, node);
        if config.Some? {
          step := step + 1;
          run, flow := RunAgentStep(run, node, step, config.value.maxTokens, tick);
          StepCases(before, node, v, run, flow);
          if flow != Next {
            EndInStep(job, start, processed, waiting, before, run, flow, v);
            left, done, tail := waiting, before.logs, StepTail(run, flow, step);
            return run, flow == Raised, processed, left, done, tail;
          }
          AfterStep(job, start, processed, waiting, before, run, v);
          if job.cyclic {
            var next := NextInCycle(job, start, processed, node, run.logs, adjacency,
                                    tick.agent.action, tick.agent.reasoning);
            assert queue + next == next;
            queue := queue + next;
          } else {
            LinearNeverExhausts(job, processed + [node]);
          }
        } else {
          AfterPassOver(job, start, processed, waiting, run.logs);
        }
      }
      processed := processed + [node];
    }
    ghost var before := run;
    run := Finish(run, Completed, None);
    EndCompleted(job, start, processed, before, run);
    FinishStatus(before, Completed);
    left, done, tail := [], before.logs, Tail(false, None, Some(ExecutionComplete(Completed, run.totalTokens)));
    raised := false;
  }

  lemma FinishStatus(run: Run, status: Status)
    ensures Finish(run, status, None).status == status
  {
  }

  lemma LinearNeverExhausts(job: Job, processed: seq<Id>)
    requires !job.cyclic
    ensures Exhausted(job, processed)
  {
  }

  /** The branch the loop takes is the verdict's. */
  lemma TurnCases(job: Job, node: Id, tick: Tick)
    requires !tick.cancelled
    ensures
      var config := ConfigOf(job.nodes, job.configs, node);
      Turn(job, node, tick) ==
        if RunsAsConnector(job.nodes, node) then ConnectorVerdict(tick)
        else if config.Some? then AgentVerdict(config.value.maxTokens, tick)
        else PassOver
    ensures !(ConnectorVerdict(tick).Stops? && ConnectorVerdict(tick).status == Running)
    ensures forall m: nat :: !(AgentVerdict(m, tick).Stops? && AgentVerdict(m, tick).status == Running)
    ensures ConnectorVerdict(tick).Did? ==>
      ConnectorVerdict(tick).action == "connector_call" && ConnectorVerdict(tick).reasoning == ""
    ensures forall m: nat :: AgentVerdict(m, tick).Did? ==>
      && tick.agent.AgentResult?
      && AgentVerdict(m, tick).action == tick.agent.action && AgentVerdict(m, tick).reasoning == tick.agent.reasoning
  {
  }

  lemma StepCases(run0: Run, node: Id, v: Verdict, run: Run, flow: Flow)
    requires Boundary(run0) && StepResult(run0, node, v, run, flow)
    requires v.Stops? ==> v.status != Running
    ensures flow == Next <==> v.Did?
    ensures flow == Raised <==> v.Raises?
    ensures flow == Raised <==> flow != Next && run.status == Running
    ensures flow == Next ==> |run.logs| == |run0.logs| + 1
  {
  }

  /** `run_execution`'s handler: whatever was raised becomes an error and a failed run. */
  function HandleException(run: Run): Run {
    run.(status := Failed, events := run.events + [Failure(0), ExecutionComplete(Failed, run.totalTokens)])
  }

  lemma EndHandled(job: Job, start: seq<Id>, processed: seq<Id>, left: seq<Id>, done: seq<LogRow>, run: Run, tail: Tail)
    requires Concluded(job, start, processed, left, done, run, tail, false)
    ensures
      if run.status == Running then
        Concluded(job, start, processed, left, done, HandleException(run),
                  Tail(true, Some(0), Some(ExecutionComplete(Failed, run.totalTokens))), true)
      else Concluded(job, start, processed, left, done, run, tail, true)
  {
    hide Progress, Exhausted;
    var handledTail := Tail(true, Some(0), Some(ExecutionComplete(Failed, run.totalTokens)));
    if run.status == Running {
      assert StepEvents(done) + Tail(true, None, None).Events(|done|) + [Failure(0), ExecutionComplete(Failed, run.totalTokens)]
          == StepEvents(done) + handledTail.Events(|done|);
    }
  }

  /** The launch finds a workflow with nodes, a tenant with budget left, and a definition that compiles. */
  ghost predicate Launches(launch: Launch, job: Job) {
    && launch.workflowFound && job.nodes != []
    && launch.tenantFound && launch.used < launch.budget
    && WellFormed(Ids(job.nodes), job.edges) && Configured(job.nodes, job.configs)
  }

  /** The queue the loop drains or, in a cyclic workflow, starts from. */
  ghost predicate StartQueue(job: Job, start: seq<Id>) {
    if job.cyclic then
      && |start| <= 1
      && (start == [] <==> forall id :: id in Ids(job.nodes) ==> !id.Present())
      && ((exists id :: Routing.IsEntry(Ids(job.nodes), job.edges, id)) ==>
            && start != []
            && Routing.FirstSuch(Ids(job.nodes), (id: Id) => Routing.IsEntry(Ids(job.nodes), job.edges, id), start[0]))
      && (start != [] && (forall id :: !Routing.IsEntry(Ids(job.nodes), job.edges, id)) ==>
            Routing.FirstSuch(Ids(job.nodes), (id: Id) => id.Present(), start[0]))
    else TopologicalSort.Scheduled(Ids(job.nodes), job.edges, start)
  }

  method BuildQueue(job: Job) returns (queue: seq<Id>)
    requires Distinct(Ids(job.nodes))
    ensures StartQueue(job, queue)
    ensures job.cyclic ==> |queue| <= 1
  {
    if job.cyclic {
      queue := Routing.BuildEntryNodeQueue(Ids(job.nodes), job.edges);
    } else {
      queue := TopologicalSort.TopologicalSort(Ids(job.nodes), job.edges);
    }
  }

  /** A whole run: refused before the loop, untouched because no longer pending, or concluded. */
  method RunExecution(launch: Launch, job: Job)
    returns (run: Run, ghost start: seq<Id>,
             ghost processed: seq<Id>, ghost left: seq<Id>, ghost done: seq<LogRow>, ghost tail: Tail)
    requires Distinct(Ids(job.nodes))
    ensures !Launches(launch, job) ==> run == Run(Failed, [], 0, [Failure(0), ExecutionComplete(Failed, 0)])
    ensures (|| !launch.workflowFound || job.nodes == [] || !launch.tenantFound || launch.used >= launch.budget
             || !WellFormed(Ids(job.nodes), job.edges) || !Configured(job.nodes, job.configs)) ==>
      run == Run(Failed, [], 0, [Failure(0), ExecutionComplete(Failed, 0)])
    ensures Launches(launch, job) && launch.status != Pending ==> run == Run(launch.status, [], 0, [])
    ensures Launches(launch, job) && launch.status == Pending ==>
      StartQueue(job, start) && Concluded(job, start, processed, left, done, run, tail, true)
  {
    hide Concluded, WellFormed, Configured, StartQueue, Explains, Ids, Distinct;
    start, processed, left, done, tail := [], [], [], [], Tail(false, None, None);
    run := Run(launch.status, [], 0, []);
    var refused := !launch.workflowFound || job.nodes == [] || !launch.tenantFound;
    if !refused {
      if launch.used >= launch.budget {
        refused := true;
      } else {
        var error := Compile(job.nodes, job.edges, job.configs);
        refused := error.Some?;
      }
    }
    if refused {
      run := run.(status := Failed, events := [Failure(0), ExecutionComplete(Failed, 0)]);
      return;
    }
    if launch.status != Pending {
      return;
    }
    var queue := BuildQueue(job);
    var raised;
    start := queue;
    run, raised, processed, left, done, tail := RunQueue(job, queue);
    EndHandled(job, start, processed, left, done, run, tail);
    if raised {
      run := HandleException(run);
      tail := Tail(true, Some(0), Some(ExecutionComplete(Failed, run.totalTokens)));
    }
  }
}
