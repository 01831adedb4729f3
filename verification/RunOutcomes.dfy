/** How runs end and what their rows say, in terms of what the turns of the loop met. */
module RunOutcomes {
  import opened Common
  import opened Graph
  import opened WorkflowValidation
  import opened RunLoop
  import Routing

  /** The node is a connector, or else an agent with its configuration. */
  predicate ConfiguredAgent(job: Job, node: Id) {
    !RunsAsConnector(job.nodes, node) && ConfigOf(job.nodes, job.configs, node).Some?
  }

  /** The budget read before the call leaves room for the agent's maximum. */
  predicate PreCheckPasses(job: Job, node: Id, tick: Tick)
    requires ConfiguredAgent(job, node)
  {
    tick.usedAtCheck + ConfigOf(job.nodes, job.configs, node).value.maxTokens <= tick.budgetAtCheck
  }

  predicate DebitFits(tick: Tick)
    requires tick.agent.AgentResult?
  {
    tick.usedAtDebit + tick.agent.inputTokens + tick.agent.outputTokens <= tick.budgetAtDebit
  }

  /** Below the cap, a run that stops with ids left stops at the first of them: cancelled by its flag, or by a
      budget that does not allow the agent's call or its booking; failed by an error or an exception. */
  lemma HowRunsStop(job: Job, start: seq<Id>, processed: seq<Id>, left: seq<Id>, done: seq<LogRow>, run: Run, tail: Tail)
    requires Concluded(job, start, processed, left, done, run, tail, true) && left != []
    requires job.cyclic ==> |processed| < MAX_ITERATIONS
    ensures
      var tick, node := job.env(|processed| + 1), left[0];
      var connector, agent := RunsAsConnector(job.nodes, node), ConfiguredAgent(job, node);
      && (run.status == Cancelled <==>
            || tick.cancelled
            || (agent && !PreCheckPasses(job, node, tick))
            || (agent && tick.agent.AgentResult? && !DebitFits(tick)))
      && (run.status == Failed <==>
            !tick.cancelled
            && ((connector && tick.connector != ConnectorOk)
                || (agent && PreCheckPasses(job, node, tick) && !tick.agent.AgentResult?)))
      && run.status in {Cancelled, Failed}
      && run.logs == done + (if !tick.cancelled && connector && tick.connector.ConnectorError?
                             then [LogRow(|done| + 1, node, 0, ConnectorFailure(tick.connector.retryable))] else [])
      && (tail.open <==> !tick.cancelled)
      && tail.failure == if tick.cancelled then None
                         else if (connector && tick.connector.ConnectorRaises?) || (agent && PreCheckPasses(job, node, tick)
                                                                                    && tick.agent.AgentRaises?)
                         then Some(0) else Some(|done| + 1)
  {
    hide Progress, Exhausted, StepEvents, Tokens;
  }

  /** With nothing left a run is completed, and only then; at the cap it fails. */
  lemma HowRunsEnd(job: Job, start: seq<Id>, processed: seq<Id>, left: seq<Id>, done: seq<LogRow>, run: Run, tail: Tail)
    requires Concluded(job, start, processed, left, done, run, tail, true)
    ensures run.status == Completed <==> left == []
    ensures left != [] && job.cyclic && |processed| >= MAX_ITERATIONS ==> run.status == Failed && run.logs == done
    ensures left == [] ==> run.logs == done && tail == Tail(false, None, Some(ExecutionComplete(Completed, run.totalTokens)))
  {
    if left != [] && (job.cyclic ==> |processed| < MAX_ITERATIONS) {
      HowRunsStop(job, start, processed, left, done, run, tail);
    }
    hide Progress, Exhausted, StepEvents, Tokens, Turn;
  }

  /** What a log row says of the turn that wrote it. */
  ghost predicate Says(job: Job, node: Id, tick: Tick, row: LogRow) {
    && row.node == node && !tick.cancelled
    && if RunsAsConnector(job.nodes, node) then
         tick.connector == ConnectorOk && row.kind == ConnectorStep && row.tokens == 0
       else
         && ConfiguredAgent(job, node) && PreCheckPasses(job, node, tick) && tick.agent.AgentResult? && DebitFits(tick)
         && row.kind == AgentStep && row.tokens == tick.agent.inputTokens + tick.agent.outputTokens
  }

  /** The turn passed the node over: it is neither a connector nor a configured agent. */
  ghost predicate Skips(job: Job, node: Id, tick: Tick) {
    !tick.cancelled && !RunsAsConnector(job.nodes, node) && !ConfiguredAgent(job, node)
  }

  /** The turns that wrote the rows, in order; every other turn passed its node over. */
  ghost predicate Wrote(job: Job, processed: seq<Id>, logs: seq<LogRow>, turns: seq<nat>) {
    && |turns| == |logs|
    && (forall a, b :: 0 <= a < b < |turns| ==> turns[a] < turns[b])
    && (forall k :: 0 <= k < |turns| ==>
          turns[k] < |processed| && Says(job, processed[turns[k]], job.env(turns[k] + 1), logs[k]))
    && forall t :: 0 <= t < |processed| && t !in turns ==> Skips(job, processed[t], job.env(t + 1))
  }

  /** Every row of a log was written by its own turn, in order, and says what that turn met. */
  lemma {:induction false} RowsSayWhatRan(job: Job, processed: seq<Id>, logs: seq<LogRow>) returns (turns: seq<nat>)
    requires Explained(job, processed, logs)
    ensures Wrote(job, processed, logs, turns)
    decreases |processed|
  {
    if processed == [] {
      turns := [];
    } else {
      var n := |processed| - 1;
      var init, node := processed[..n], processed[n];
      TurnSays(job, node, job.env(n + 1), |logs|);
      match Turn(job, node, job.env(n + 1))
      case Did(_, _, _, _) =>
        var before := RowsSayWhatRan(job, init, logs[..|logs| - 1]);
        turns := before + [n];
        WrotePush(job, processed, logs, before);
      case PassOver =>
        turns := RowsSayWhatRan(job, init, logs);
        SkippedPush(job, processed, logs, turns);
      case _ =>
    }
  }

  lemma TurnSays(job: Job, node: Id, tick: Tick, step: nat)
    ensures
      match Turn(job, node, tick)
      case Did(tokens, kind, _, _) => Says(job, node, tick, LogRow(step, node, tokens, kind))
      case PassOver => Skips(job, node, tick)
      case _ => true
  {
  }

  lemma WrotePush(job: Job, processed: seq<Id>, logs: seq<LogRow>, before: seq<nat>)
    requires processed != [] && logs != []
    requires Wrote(job, processed[..|processed| - 1], logs[..|logs| - 1], before)
    requires Says(job, processed[|processed| - 1], job.env(|processed|), logs[|logs| - 1])
    ensures Wrote(job, processed, logs, before + [|processed| - 1])
  {
    hide Says, Skips;
    var n, turns := |processed| - 1, before + [|processed| - 1];
    forall t | 0 <= t < |processed| && t !in turns
      ensures Skips(job, processed[t], job.env(t + 1))
    {
      assert turns[|before|] == n;
      assert forall x :: x in before ==> x in turns;
      assert processed[..n][t] == processed[t];
    }
    forall k | 0 <= k < |turns|
      ensures turns[k] < |processed| && Says(job, processed[turns[k]], job.env(turns[k] + 1), logs[k])
    {
      if k < |before| {
        assert processed[..n][before[k]] == processed[before[k]] && logs[..|logs| - 1][k] == logs[k];
      }
    }
  }

  lemma SkippedPush(job: Job, processed: seq<Id>, logs: seq<LogRow>, turns: seq<nat>)
    requires processed != [] && Wrote(job, processed[..|processed| - 1], logs, turns)
    requires Skips(job, processed[|processed| - 1], job.env(|processed|))
    ensures Wrote(job, processed, logs, turns)
  {
    hide Says, Skips;
    assert forall t :: 0 <= t < |processed| - 1 ==> processed[..|processed| - 1][t] == processed[t];
  }

  /** A hop of a cyclic run follows the routing rules on what the turn returned: the agent's action and
      reasoning, or `connector_call` and none. */
  lemma HopsFollowResults(job: Job, i: nat, u: Id, v: Id)
    requires Chosen(job, i, u, v)
    ensures v.Present() && !job.env(i).cancelled
    ensures RunsAsConnector(job.nodes, u) ==> Routing.Routes(Routing.Outgoing(job.edges, u), "connector_call", "", v)
    ensures !RunsAsConnector(job.nodes, u) ==>
      && job.env(i).agent.AgentResult?
      && Routing.Routes(Routing.Outgoing(job.edges, u), job.env(i).agent.action, job.env(i).agent.reasoning, v)
  {
    hide Routing.Routes;
  }
}
