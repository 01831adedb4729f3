/** Approval-gated automation plans: the requests that decide them and the worker that runs them, each as one
    participant among others. `PlanLife` says what the others may not do for a plan to run once. */
module PlanWorker {
  import opened Common
  import opened WebhookLineage
  import L = PlanLife

  datatype Automation = ResumeGuard | ApprovalGatedRetry | Unsupported

  type PlanId = nat

  datatype Entry = Entry(plan: L.Plan, code: string, automation: Automation)

  /** Where others may act while the worker is at one plan: before each of its steps and after the last one. */
  datatype Moment = BeforeMark | BeforeCarry | BeforeSettle | AfterSettle

  /** What the worker meets at one plan: what others do to the plans at each moment, what they do to the executions
      before it and during a retry, and how its own run goes. */
  datatype Encounter = Encounter(steps: Moment -> PlanId -> seq<L.Step>, arrivals: seq<Action>, actions: seq<Action>, raises: bool,
                                 deadLettered: nat, deferred: nat, throttled: nat, admitted: bool)

  datatype WorkerResult = WorkerResult(claimed: nat, executed: nat, blocked: nat, failed: nat)

  /** The others are neither the run r nor the request q. */
  ghost predicate OfOthers(e: Encounter, r: L.RunId, q: RequestId) {
    && (forall moment, id, a :: a in e.steps(moment)(id) ==> L.ByOthers(a, r))
    && (forall a :: a in e.arrivals ==> NotOf(a, q))
    && forall a :: a in e.actions ==> NotOf(a, q)
  }

  predicate NotOf(a: Action, q: RequestId) {
    match a
    case ReadForRetry(o, _) => o != q
    case FindForPlan(o) => o != q
    case CreateRetry(o, _) => o != q
    case _ => true
  }

  predicate NotAbout(a: L.Step, q: L.RequestId) {
    match a
    case Read(o, _) => o != q
    case Write(o) => o != q
    case _ => true
  }

  lemma {:induction false} OthersKeepDecision(p: L.Plan, steps: seq<L.Step>, q: L.RequestId)
    requires q in p.decisions && forall a :: a in steps ==> NotAbout(a, q)
    ensures q in L.History(p, steps).decisions && L.History(p, steps).decisions[q] == p.decisions[q]
    decreases |steps|
  {
    if steps != [] {
      assert steps[|steps| - 1] in steps;
      OthersKeepDecision(p, steps[..|steps| - 1], q);
    }
  }

  lemma {:induction false} OthersKeepRequest(policy: RetryPolicy, s: System, actions: seq<Action>, q: RequestId)
    requires Inv(policy, s) && forall a :: a in actions ==> NotOf(a, q)
    ensures Inv(policy, History(policy, s, actions)) && |History(policy, s, actions).rows| >= |s.rows|
    ensures q in History(policy, s, actions).open.retries <==> q in s.open.retries
    ensures q in s.open.retries ==> History(policy, s, actions).open.retries[q] == s.open.retries[q]
    decreases |actions|
  {
    if actions != [] {
      var init, a := actions[..|actions| - 1], actions[|actions| - 1];
      assert a in actions;
      OthersKeepRequest(policy, s, init, q);
      hide Inv, Next;
      NextKeepsInv(policy, History(policy, s, init), a);
      OtherKeepsRequest(policy, History(policy, s, init), a, q);
    }
  }

  lemma OtherKeepsRequest(policy: RetryPolicy, s: System, a: Action, q: RequestId)
    requires NotOf(a, q)
    ensures |Next(policy, s, a).rows| >= |s.rows|
    ensures q in Next(policy, s, a).open.retries <==> q in s.open.retries
    ensures q in s.open.retries ==> Next(policy, s, a).open.retries[q] == s.open.retries[q]
  {
    hide PlanSource, RetryRow, ManualRow, AfterRun, DeadLetter;
  }

  // ---------------------------------------------------------------- the table of plans and its histories

  /** The step taken on the given plans. */
  function Stepped(plans: seq<Entry>, ids: seq<PlanId>, a: L.Step): (r: seq<Entry>)
    ensures |r| == |plans|
  {
    seq(|plans|, k requires 0 <= k < |plans| =>
      if k in ids then plans[k].(plan := L.Next(plans[k].plan, a)) else plans[k])
  }

  /** What the others did to every plan. */
  function Interfered(plans: seq<Entry>, steps: PlanId -> seq<L.Step>): (r: seq<Entry>)
    ensures |r| == |plans|
  {
    seq(|plans|, k requires 0 <= k < |plans| => plans[k].(plan := L.History(plans[k].plan, steps(k))))
  }

  type Traces = seq<seq<L.Step>>

  ghost function Noted(traces: Traces, ids: seq<PlanId>, a: L.Step): (r: Traces)
    ensures |r| == |traces|
    ensures forall k :: 0 <= k < |traces| ==> r[k] == if k in ids then traces[k] + [a] else traces[k]
  {
    seq(|traces|, k requires 0 <= k < |traces| => if k in ids then traces[k] + [a] else traces[k])
  }

  ghost function NotedOthers(traces: Traces, steps: PlanId -> seq<L.Step>): (r: Traces)
    ensures |r| == |traces|
    ensures forall k :: 0 <= k < |traces| ==> r[k] == traces[k] + steps(k)
  {
    seq(|traces|, k requires 0 <= k < |traces| => traces[k] + steps(k))
  }

  /** Every plan is where its trace leads. */
  ghost predicate Traced(before: seq<Entry>, plans: seq<Entry>, traces: Traces) {
    && |before| == |plans| == |traces|
    && forall k :: 0 <= k < |plans| ==> plans[k] == before[k].(plan := L.History(before[k].plan, traces[k]))
  }

  lemma TracedStep(before: seq<Entry>, plans: seq<Entry>, traces: Traces, ids: seq<PlanId>, a: L.Step)
    requires Traced(before, plans, traces)
    ensures Traced(before, Stepped(plans, ids, a), Noted(traces, ids, a))
  {
    forall k | 0 <= k < |plans|
      ensures Stepped(plans, ids, a)[k] == before[k].(plan := L.History(before[k].plan, Noted(traces, ids, a)[k]))
    {
      L.HistoryPush(before[k].plan, traces[k], a);
    }
  }

  lemma TracedOthers(before: seq<Entry>, plans: seq<Entry>, traces: Traces, steps: PlanId -> seq<L.Step>)
    requires Traced(before, plans, traces)
    ensures Traced(before, Interfered(plans, steps), NotedOthers(traces, steps))
  {
    forall k | 0 <= k < |plans|
      ensures Interfered(plans, steps)[k] == before[k].(plan := L.History(before[k].plan, NotedOthers(traces, steps)[k]))
    {
      L.HistoryConcat(before[k].plan, traces[k], steps(k));
    }
  }

  ghost predicate Selects(trace: seq<L.Step>, r: L.RunId) {
    trace != [] && trace[0] == L.Select(r)
  }

  /** A trace in which the run selected the plan and has come to the given stage with it. */
  ghost predicate At(trace: seq<L.Step>, r: L.RunId, stage: L.Stage) {
    Selects(trace, r) && L.Reached(L.Own(trace, r), r, stage)
  }

  /** The run has settled the plans before position i, is at `stage` with the one there, holds the rest of
      what it selected, and has touched no other plan. */
  ghost predicate Stages(traces: Traces, r: L.RunId, answer: seq<PlanId>, i: nat, statuses: map<PlanId, L.PlanStatus>,
                         stage: L.Stage)
    requires i <= |answer|
  {
    && statuses.Keys == (set id | id in answer[..i])
    && forall k :: 0 <= k < |traces| ==>
         if k in answer[..i] then At(traces[k], r, L.Settled(statuses[k]))
         else if i < |answer| && k == answer[i] then At(traces[k], r, stage)
         else if k in answer then At(traces[k], r, L.Selected)
         else L.Own(traces[k], r) == []
  }

  /** What the database answers to the worker's query: at most `limit` distinct plans, approved as it answers. */
  ghost predicate QueryAnswer(plans: seq<Entry>, limit: nat, ids: seq<PlanId>) {
    && |ids| <= limit
    && (forall i, j :: 0 <= i < j < |ids| ==> ids[i] != ids[j])
    && forall id :: id in ids ==> id < |plans| && plans[id].plan.status == L.Approved
  }

  function CountOf(ids: seq<PlanId>, statuses: map<PlanId, L.PlanStatus>, status: L.PlanStatus): nat {
    if ids == [] then 0
    else
      var last := ids[|ids| - 1];
      CountOf(ids[..|ids| - 1], statuses, status) + if last in statuses && statuses[last] == status then 1 else 0
  }

  class Automations {
    var plans: seq<Entry>
    var lineage: System
    var pausedWorkflows: set<nat>

    /** A plan is requested for a recommendation that is current and has no plan waiting already. */
    method Create(code: string, automation: Automation, current: bool) returns (id: Option<PlanId>)
      modifies this`plans
      ensures id == None <==>
        !current || exists k :: 0 <= k < |old(plans)| && old(plans)[k].code == code && old(plans)[k].plan.status == L.PendingApproval
      ensures id == None ==> plans == old(plans)
      ensures id.Some? ==> id.value == |old(plans)| && plans == old(plans) + [Entry(L.REQUESTED, code, automation)]
    {
      if !current {
        return None;
      }
      for i := 0 to |plans|
        invariant forall k :: 0 <= k < i ==> plans[k].code != code || plans[k].plan.status != L.PendingApproval
      {
        if plans[i].code == code && plans[i].plan.status == L.PendingApproval {
          return None;
        }
      }
      plans := plans + [Entry(L.REQUESTED, code, automation)];
      id := Some(|plans| - 1);
    }

    /** Reads the plan and, unless that shows a conflict, writes without looking again. */
    method Approve(id: PlanId, q: L.RequestId, meanwhile: seq<L.Step>) returns (conflict: bool)
      requires id < |plans| && q !in plans[id].plan.decisions && forall a :: a in meanwhile ==> NotAbout(a, q)
      modifies this`plans
      ensures conflict <==> old(plans)[id].plan.status != L.PendingApproval
      ensures plans == if conflict then old(plans) else
        old(plans)[id := old(plans)[id].(plan :=
          L.History(old(plans)[id].plan, [L.Read(q, L.Approval)] + meanwhile + [L.Write(q)]))]
      ensures !conflict ==> plans[id].plan.status == L.Approved
    {
      if plans[id].plan.status != L.PendingApproval {
        return true;
      }
      ghost var before := plans[id].plan;
      var read := L.Next(plans[id].plan, L.Read(q, L.Approval));
      var p := L.History(read, meanwhile);
      DecisionTrace(before, q, L.Approval, meanwhile);
      p := p.(status := L.Approved, approvals := p.approvals + 1, decisions := p.decisions - {q});
      plans := plans[id := plans[id].(plan := p)];
      conflict := false;
    }

    method Reject(id: PlanId, q: L.RequestId, meanwhile: seq<L.Step>) returns (conflict: bool)
      requires id < |plans| && q !in plans[id].plan.decisions && forall a :: a in meanwhile ==> NotAbout(a, q)
      modifies this`plans
      ensures conflict <==> old(plans)[id].plan.status != L.PendingApproval
      ensures plans == if conflict then old(plans) else
        old(plans)[id := old(plans)[id].(plan :=
          L.History(old(plans)[id].plan, [L.Read(q, L.Rejection)] + meanwhile + [L.Write(q)]))]
      ensures !conflict ==> plans[id].plan.status == L.Rejected
    {
      if plans[id].plan.status != L.PendingApproval {
        return true;
      }
      ghost var before := plans[id].plan;
      var read := L.Next(plans[id].plan, L.Read(q, L.Rejection));
      var p := L.History(read, meanwhile);
      DecisionTrace(before, q, L.Rejection, meanwhile);
      p := p.(status := L.Rejected, rejections := p.rejections + 1, decisions := p.decisions - {q});
      plans := plans[id := plans[id].(plan := p)];
      conflict := false;
    }

    /** The newest rows, restored to ascending order, scanned for the oldest dead letter not yet retried. */
    method FindDeadLetterRetrySource() returns (source: Option<ExecutionId>)
      ensures source == PlanSource(lineage.rows)
    {
      var rows := lineage.rows;
      var from := WindowStart(rows);
      var retried: set<ExecutionId> := {};
      for i := from to |rows|
        invariant retried == set k | from <= k < i && rows[k].dispatch.parent.Some? :: rows[k].dispatch.parent.value
      {
        if rows[i].dispatch.parent.Some? {
          retried := retried + {rows[i].dispatch.parent.value};
        }
      }
      for i := from to |rows|
        invariant FindSource(rows, retried, from) == FindSource(rows, retried, i)
      {
        if i in retried {
          continue;
        }
        if IsDeadLettered(rows[i]) {
          return Some(i);
        }
      }
      source := None;
    }

    method ExecuteResumeGuard(e: Encounter) returns (status: L.PlanStatus)
      modifies this`pausedWorkflows
      ensures status == if e.deadLettered > 0 || e.deferred > 0 || e.throttled > 0 then L.Blocked else L.Executed
      ensures pausedWorkflows == if status == L.Executed then {} else old(pausedWorkflows)
    {
      if e.deadLettered > 0 || e.deferred > 0 || e.throttled > 0 {
        return L.Blocked;
      }
      pausedWorkflows := {};
      status := L.Executed;
    }

    /** Finds a source, lets the others act, and creates the retry if that is admitted. */
    method ExecuteApprovalGatedRetry(policy: RetryPolicy, q: RequestId, e: Encounter)
      returns (status: L.PlanStatus, ghost actions: seq<Action>)
      requires Inv(policy, lineage) && q !in lineage.open.retries && forall a :: a in e.actions ==> NotOf(a, q)
      modifies this`lineage
      ensures status == if PlanSource(old(lineage).rows).Some? && e.admitted then L.Executed else L.Blocked
      ensures actions == if PlanSource(old(lineage).rows).None? then []
                         else [FindForPlan(q)] + e.actions + [CreateRetry(q, e.admitted)]
      ensures lineage == History(policy, old(lineage), actions)
      ensures Inv(policy, lineage) && q !in lineage.open.retries
    {
      ghost var before := lineage;
      var source := FindDeadLetterRetrySource();
      if source.None? {
        return L.Blocked, [];
      }
      actions := [FindForPlan(q)] + e.actions + [CreateRetry(q, e.admitted)];
      RetryTrace(policy, before, q, e.actions, e.admitted);
      hide Inv, PlanSource, Next, History;
      lineage := Next(policy, lineage, FindForPlan(q));
      lineage := History(policy, lineage, e.actions);
      if !e.admitted {
        lineage := lineage.(open := lineage.open.(retries := lineage.open.retries - {q}));
        return L.Blocked, actions;
      }
      lineage := lineage.(rows := lineage.rows + [ManualRow(lineage.rows[source.value], source.value, Planned)],
                          open := lineage.open.(retries := lineage.open.retries - {q}));
      status := L.Executed;
    }

    /** What a plan's automation may write, by its kind. */
    method ExecutePlan(policy: RetryPolicy, automation: Automation, q: RequestId, e: Encounter)
      returns (status: L.PlanStatus, ghost actions: seq<Action>)
      requires Inv(policy, lineage) && q !in lineage.open.retries && forall a :: a in e.actions ==> NotOf(a, q)
      modifies this`lineage, this`pausedWorkflows
      ensures status in {L.Executed, L.Blocked}
      ensures automation.Unsupported? ==> status == L.Blocked
      ensures automation != ResumeGuard || status == L.Blocked ==> pausedWorkflows == old(pausedWorkflows)
      ensures automation == ResumeGuard ==>
        && (status == L.Blocked <==> e.deadLettered > 0 || e.deferred > 0 || e.throttled > 0)
        && (status == L.Executed ==> pausedWorkflows == {})
      ensures automation != ApprovalGatedRetry ==> actions == []
      ensures automation == ApprovalGatedRetry ==>
        && (status == L.Executed <==> PlanSource(old(lineage).rows).Some? && e.admitted)
        && actions == if PlanSource(old(lineage).rows).None? then []
                      else [FindForPlan(q)] + e.actions + [CreateRetry(q, e.admitted)]
      ensures lineage == History(policy, old(lineage), actions)
      ensures Inv(policy, lineage) && q !in lineage.open.retries
    {
      hide Inv, PlanSource;
      actions := [];
      match automation
      case ResumeGuard =>
        status := ExecuteResumeGuard(e);
      case ApprovalGatedRetry =>
        status, actions := ExecuteApprovalGatedRetry(policy, q, e);
      case Unsupported =>
        status := L.Blocked;
    }

    /** The plan's execution, after what others did to the executions meanwhile; an exception fails the plan. */
    method TryPlan(policy: RetryPolicy, automation: Automation, r: L.RunId, q: RequestId, e: Encounter)
      returns (status: L.PlanStatus, ghost actions: seq<Action>)
      requires Inv(policy, lineage) && q !in lineage.open.retries && OfOthers(e, r, q)
      modifies this`lineage, this`pausedWorkflows
      ensures status in {L.Executed, L.Blocked, L.PlanFailed} && (status == L.PlanFailed <==> e.raises)
      ensures lineage == History(policy, old(lineage), actions) && Inv(policy, lineage) && q !in lineage.open.retries
      ensures CarriedOut(automation, e, q, PlanSource(History(policy, old(lineage), e.arrivals).rows).Some?, status, actions)
      ensures pausedWorkflows == if automation == ResumeGuard && status == L.Executed then {} else old(pausedWorkflows)
    {
      hide Inv, PlanSource, History, NotOf;
      ArrivalsKeep(policy, lineage, e, r, q);
      lineage, actions := History(policy, lineage, e.arrivals), e.arrivals;
      if e.raises {
        return L.PlanFailed, actions;
      }
      ghost var more;
      status, more := ExecutePlan(policy, automation, q, e);
      HistoryConcat(policy, old(lineage), actions, more);
      actions := actions + more;
      assert e.arrivals + [] == e.arrivals;
    }

    /** The worker at one plan. Others act between any two of its steps; what the run writes does not depend on it. */
    method RunPlan(policy: RetryPolicy, r: L.RunId, q: RequestId, answer: seq<PlanId>, i: nat, e: Encounter,
                   ghost plans0: seq<Entry>, ghost traces0: Traces, ghost statuses: map<PlanId, L.PlanStatus>)
      returns (status: L.PlanStatus, ghost traces: Traces, ghost actions: seq<Action>)
      requires i < |answer| && answer[i] < |plans| && answer[i] !in answer[..i]
      requires Traced(plans0, plans, traces0) && Stages(traces0, r, answer, i, statuses, L.Selected)
      requires Inv(policy, lineage) && q !in lineage.open.retries && OfOthers(e, r, q)
      modifies this
      ensures |plans| == |old(plans)|
      ensures Traced(plans0, plans, traces) && Stages(traces, r, answer, i, statuses, L.Settled(status))
      ensures status in {L.Executed, L.Blocked, L.PlanFailed} && (status == L.PlanFailed <==> e.raises)
      ensures lineage == History(policy, old(lineage), actions) && Inv(policy, lineage) && q !in lineage.open.retries
      ensures CarriedOut(old(plans)[answer[i]].automation, e, q,
                         PlanSource(History(policy, old(lineage), e.arrivals).rows).Some?, status, actions)
      ensures pausedWorkflows ==
        if old(plans)[answer[i]].automation == ResumeGuard && status == L.Executed then {} else old(pausedWorkflows)
    {
      hide *;
      var id := answer[i];
      SameAutomation(plans0, plans, traces0, id);
      traces := traces0;
      OthersKeepStages(plans0, plans, traces, r, answer, i, statuses, L.Selected, e, q, BeforeMark);
      traces, plans := NotedOthers(traces, e.steps(BeforeMark)), Interfered(plans, e.steps(BeforeMark));

      TracedStep(plans0, plans, traces, [id], L.Mark(r));
      StageStep(traces, r, answer, i, statuses, L.Selected, L.Mark(r), L.Marked);
      traces, plans := Noted(traces, [id], L.Mark(r)), Stepped(plans, [id], L.Mark(r));
      OthersKeepStages(plans0, plans, traces, r, answer, i, statuses, L.Marked, e, q, BeforeCarry);
      traces, plans := NotedOthers(traces, e.steps(BeforeCarry)), Interfered(plans, e.steps(BeforeCarry));

      TracedStep(plans0, plans, traces, [id], L.Carry(r));
      StageStep(traces, r, answer, i, statuses, L.Marked, L.Carry(r), L.Carried);
      traces, plans := Noted(traces, [id], L.Carry(r)), Stepped(plans, [id], L.Carry(r));
      SameAutomation(plans0, plans, traces, id);
      var automation := plans[id].automation;
      status, actions := TryPlan(policy, automation, r, q, e);
      if automation == ApprovalGatedRetry && status == L.Executed {
        TracedStep(plans0, plans, traces, answer, L.Commit(r));
        CommitKeepsStages(traces, r, answer, i, statuses, L.Carried);
        traces, plans := Noted(traces, answer, L.Commit(r)), Stepped(plans, answer, L.Commit(r));
      }
      OthersKeepStages(plans0, plans, traces, r, answer, i, statuses, L.Carried, e, q, BeforeSettle);
      traces, plans := NotedOthers(traces, e.steps(BeforeSettle)), Interfered(plans, e.steps(BeforeSettle));

      TracedStep(plans0, plans, traces, [id], L.Settle(r, status));
      Outcomes(status);
      StageStep(traces, r, answer, i, statuses, L.Carried, L.Settle(r, status), L.Settled(status));
      traces, plans := Noted(traces, [id], L.Settle(r, status)), Stepped(plans, [id], L.Settle(r, status));
      OthersKeepStages(plans0, plans, traces, r, answer, i, statuses, L.Settled(status), e, q, AfterSettle);
      traces, plans := NotedOthers(traces, e.steps(AfterSettle)), Interfered(plans, e.steps(AfterSettle));
    }

    /** One worker run among the others: it selects what the query answers, then marks, carries out and settles plan by
        plan, commits whenever a retry is created and once at the end, and leaves. A plan that raises is failed. */
    method RunOnce(policy: RetryPolicy, r: L.RunId, q: RequestId, limit: nat, answer: seq<PlanId>, encounters: nat -> Encounter)
      returns (result: WorkerResult, ghost traces: Traces, ghost deeds: seq<seq<Action>>, ghost statuses: map<PlanId, L.PlanStatus>)
      requires QueryAnswer(plans, limit, answer) && forall id :: 0 <= id < |plans| ==> r !in plans[id].plan.claims
      requires Inv(policy, lineage) && q !in lineage.open.retries && forall i :: OfOthers(encounters(i), r, q)
      modifies this
      ensures Traced(old(plans), plans, traces) && statuses.Keys == set id | id in answer
      ensures forall id :: 0 <= id < |plans| ==>
        if id in answer then L.RunsThrough(traces[id], r, statuses[id]) else L.Own(traces[id], r) == []
      ensures lineage == History(policy, old(lineage), Flat(deeds)) && Inv(policy, lineage)
      ensures |deeds| == |answer| && Deeds(policy, old(lineage), old(plans), answer, encounters, q, deeds, statuses)
      ensures pausedWorkflows == if Resumed(old(plans), answer, statuses) then {} else old(pausedWorkflows)
      ensures result.claimed == result.executed + result.blocked + result.failed == |answer| <= limit
      ensures result.executed == CountOf(answer, statuses, L.Executed)
      ensures result.blocked == CountOf(answer, statuses, L.Blocked)
    {
      hide *;
      ghost var plans0, lineage0 := plans, lineage;
      result, deeds, statuses := WorkerResult(0, 0, 0, 0), [], map[];
      traces := NoTraces(plans);
      TracedStep(plans0, plans, traces, answer, L.Select(r));
      AllSelected(traces, r, answer);
      traces, plans := Noted(traces, answer, L.Select(r)), Stepped(plans, answer, L.Select(r));
      NothingYet(policy, lineage, statuses);
      NoDeeds(policy, lineage, plans0, answer, encounters, q, statuses);
      assert answer[..0] == [];
      for i := 0 to |answer|
        invariant Traced(plans0, plans, traces) && Stages(traces, r, answer, i, statuses, L.Selected)
        invariant lineage == History(policy, lineage0, Flat(deeds)) && Inv(policy, lineage) && q !in lineage.open.retries
        invariant |deeds| == i && Deeds(policy, lineage0, plans0, answer, encounters, q, deeds, statuses)
        invariant pausedWorkflows == if Resumed(plans0, answer[..i], statuses) then {} else old(pausedWorkflows)
        invariant result.claimed == result.executed + result.blocked + result.failed == i
        invariant result.executed == CountOf(answer[..i], statuses, L.Executed)
        invariant result.blocked == CountOf(answer[..i], statuses, L.Blocked)
      {
        InTable(plans0, limit, answer, i, plans, traces, encounters(i), r, q);
        result := result.(claimed := result.claimed + 1);
        SameAutomation(plans0, plans, traces, answer[i]);
        ghost var more;
        var status;
        status, traces, more := RunPlan(policy, r, q, answer, i, encounters(i), plans0, traces, statuses);
        HistoryConcat(policy, lineage0, Flat(deeds), more);
        OneMoreDeed(policy, lineage0, plans0, limit, answer, encounters, q, deeds, more, statuses, status);
        deeds := deeds + [more];
        StageDone(traces, r, answer, i, statuses, status);
        CountStep(plans0, limit, answer, i, statuses, status);
        statuses := statuses[answer[i] := status];
        if status == L.Executed {
          result := result.(executed := result.executed + 1);
        } else if status == L.Blocked {
          result := result.(blocked := result.blocked + 1);
        } else {
          result := result.(failed := result.failed + 1);
        }
      }
      assert answer[..|answer|] == answer;
      AtMost(plans0, limit, answer);
      RunEnds(traces, r, answer, statuses);
      TracedStep(plans0, plans, traces, answer, L.Commit(r));
      traces, plans := Noted(traces, answer, L.Commit(r)), Stepped(plans, answer, L.Commit(r));
      TracedStep(plans0, plans, traces, answer, L.Leave(r));
      traces, plans := Noted(traces, answer, L.Leave(r)), Stepped(plans, answer, L.Leave(r));
      SameLength(plans0, plans, traces);
    }
  }

  // ---------------------------------------------------------------- what becomes of each plan

  /** What the worker does with a plan that it has marked, by the plan's automation: `found` says whether there is a
      source to retry. A resume guard is blocked by any open figure; a retry without a source or an admission;
      an unknown automation always. Only a retry touches the executions. */
  ghost predicate CarriedOut(automation: Automation, e: Encounter, q: RequestId, found: bool, status: L.PlanStatus,
                             actions: seq<Action>) {
    if e.raises then status == L.PlanFailed && actions == e.arrivals
    else
      match automation
      case Unsupported => status == L.Blocked && actions == e.arrivals
      case ResumeGuard =>
        && status == (if e.deadLettered > 0 || e.deferred > 0 || e.throttled > 0 then L.Blocked else L.Executed)
        && actions == e.arrivals
      case ApprovalGatedRetry =>
        && status == (if found && e.admitted then L.Executed else L.Blocked)
        && actions == e.arrivals + if found then [FindForPlan(q)] + e.actions + [CreateRetry(q, e.admitted)] else []
  }

  ghost function Flat(deeds: seq<seq<Action>>): seq<Action> {
    if deeds == [] then [] else Flat(deeds[..|deeds| - 1]) + deeds[|deeds| - 1]
  }

  /** Each plan's deed, in the order of the answer: what was done with it by its automation, a source being looked
      for in the executions as the deeds before it and the arrivals left them. */
  ghost predicate Deeds(policy: RetryPolicy, lineage0: System, plans0: seq<Entry>, answer: seq<PlanId>,
                        encounters: nat -> Encounter, q: RequestId, deeds: seq<seq<Action>>,
                        statuses: map<PlanId, L.PlanStatus>) {
    forall i :: 0 <= i < |deeds| && i < |answer| && answer[i] < |plans0| ==>
      && answer[i] in statuses
      && CarriedOut(plans0[answer[i]].automation, encounters(i), q,
                    PlanSource(History(policy, History(policy, lineage0, Flat(deeds[..i])), encounters(i).arrivals).rows).Some?,
                    statuses[answer[i]], deeds[i])
  }

  /** Some resume guard was executed. */
  ghost predicate Resumed(plans0: seq<Entry>, ids: seq<PlanId>, statuses: map<PlanId, L.PlanStatus>) {
    exists id :: id in ids && id < |plans0| && id in statuses
      && plans0[id].automation == ResumeGuard && statuses[id] == L.Executed
  }

  lemma NoDeeds(policy: RetryPolicy, lineage0: System, plans0: seq<Entry>, answer: seq<PlanId>, encounters: nat -> Encounter,
                q: RequestId, statuses: map<PlanId, L.PlanStatus>)
    ensures Deeds(policy, lineage0, plans0, answer, encounters, q, [], statuses) && Flat([]) == []
    ensures !Resumed(plans0, [], statuses)
  {
  }

  lemma OneMoreDeed(policy: RetryPolicy, lineage0: System, plans0: seq<Entry>, limit: nat, answer: seq<PlanId>,
                    encounters: nat -> Encounter, q: RequestId, deeds: seq<seq<Action>>, more: seq<Action>,
                    statuses: map<PlanId, L.PlanStatus>, status: L.PlanStatus)
    requires QueryAnswer(plans0, limit, answer) && |deeds| < |answer| && answer[|deeds|] < |plans0|
    requires Deeds(policy, lineage0, plans0, answer, encounters, q, deeds, statuses)
    requires
      var i := |deeds|;
      CarriedOut(plans0[answer[i]].automation, encounters(i), q,
                 PlanSource(History(policy, History(policy, lineage0, Flat(deeds)), encounters(i).arrivals).rows).Some?, status, more)
    ensures Deeds(policy, lineage0, plans0, answer, encounters, q, deeds + [more], statuses[answer[|deeds|] := status])
    ensures Flat(deeds + [more]) == Flat(deeds) + more
    ensures
      var i := |deeds|;
      Resumed(plans0, answer[..i + 1], statuses[answer[i] := status])
      <==> Resumed(plans0, answer[..i], statuses) || (plans0[answer[i]].automation == ResumeGuard && status == L.Executed)
  {
    hide *;
    var i := |deeds|;
    Fresh(plans0, limit, answer, i);
    assert answer[..i + 1] == answer[..i] + [answer[i]];
    DeedsPush(policy, lineage0, plans0, answer, encounters, q, deeds, more, statuses, status);
    FlatPush(deeds, more);
    ResumedPush(plans0, answer[..i], answer[i], statuses, status);
  }

  lemma Fresh(plans: seq<Entry>, limit: nat, answer: seq<PlanId>, i: nat)
    requires QueryAnswer(plans, limit, answer) && i < |answer|
    ensures answer[i] !in answer[..i] && forall k :: 0 <= k < i ==> answer[k] != answer[i]
  {
  }

  lemma FlatPush(deeds: seq<seq<Action>>, more: seq<Action>)
    ensures Flat(deeds + [more]) == Flat(deeds) + more
  {
    assert (deeds + [more])[..|deeds|] == deeds;
  }

  lemma DeedsPush(policy: RetryPolicy, lineage0: System, plans0: seq<Entry>, answer: seq<PlanId>, encounters: nat -> Encounter,
                  q: RequestId, deeds: seq<seq<Action>>, more: seq<Action>, statuses: map<PlanId, L.PlanStatus>,
                  status: L.PlanStatus)
    requires |deeds| < |answer| && answer[|deeds|] < |plans0|
    requires forall k :: 0 <= k < |deeds| ==> answer[k] != answer[|deeds|]
    requires Deeds(policy, lineage0, plans0, answer, encounters, q, deeds, statuses)
    requires
      var i := |deeds|;
      CarriedOut(plans0[answer[i]].automation, encounters(i), q,
                 PlanSource(History(policy, History(policy, lineage0, Flat(deeds)), encounters(i).arrivals).rows).Some?, status, more)
    ensures Deeds(policy, lineage0, plans0, answer, encounters, q, deeds + [more], statuses[answer[|deeds|] := status])
  {
    hide CarriedOut, History, PlanSource, Flat;
    var after := deeds + [more];
    forall k | 0 <= k <= |deeds|
      ensures after[..k] == deeds[..k]
    {
    }
    assert deeds[..|deeds|] == deeds;
  }

  lemma ResumedPush(plans0: seq<Entry>, ids: seq<PlanId>, id: PlanId, statuses: map<PlanId, L.PlanStatus>, status: L.PlanStatus)
    requires id !in ids && id < |plans0|
    ensures Resumed(plans0, ids + [id], statuses[id := status])
       <==> Resumed(plans0, ids, statuses) || (plans0[id].automation == ResumeGuard && status == L.Executed)
  {
    var after := statuses[id := status];
    if Resumed(plans0, ids, statuses) {
      var x :| x in ids && x < |plans0| && x in statuses && plans0[x].automation == ResumeGuard && statuses[x] == L.Executed;
      assert x in ids + [id] && after[x] == statuses[x];
    }
    if plans0[id].automation == ResumeGuard && status == L.Executed {
      assert id in ids + [id] && after[id] == status;
    }
  }

  lemma SameAutomation(before: seq<Entry>, plans: seq<Entry>, traces: Traces, id: PlanId)
    requires Traced(before, plans, traces) && id < |plans|
    ensures id < |before| && plans[id].automation == before[id].automation
  {
    hide L.History;
  }

  // ---------------------------------------------------------------- the bookkeeping of a run

  ghost function NoTraces(plans: seq<Entry>): (traces: Traces)
    ensures Traced(plans, plans, traces) && forall k :: 0 <= k < |traces| ==> traces[k] == []
  {
    seq(|plans|, k => [])
  }

  lemma AllSelected(traces: Traces, r: L.RunId, answer: seq<PlanId>)
    requires forall k :: 0 <= k < |traces| ==> traces[k] == []
    ensures Stages(Noted(traces, answer, L.Select(r)), r, answer, 0, map[], L.Selected)
  {
    forall k | 0 <= k < |traces|
      ensures if k in answer then At(Noted(traces, answer, L.Select(r))[k], r, L.Selected)
              else L.Own(Noted(traces, answer, L.Select(r))[k], r) == []
    {
      L.OwnPush([], L.Select(r), r);
      assert [] + [L.Select(r)] == [L.Select(r)] && L.Own([], r) == [];
    }
  }

  lemma NothingDone(policy: RetryPolicy, s: System)
    ensures History(policy, s, []) == s
  {
  }

  lemma NothingYet(policy: RetryPolicy, s: System, statuses: map<PlanId, L.PlanStatus>)
    ensures History(policy, s, []) == s
    ensures CountOf([], statuses, L.Executed) == CountOf([], statuses, L.Blocked) == 0
  {
  }

  lemma InTable(before: seq<Entry>, limit: nat, answer: seq<PlanId>, i: nat, plans: seq<Entry>, traces: Traces,
                e: Encounter, r: L.RunId, q: RequestId)
    requires QueryAnswer(before, limit, answer) && i < |answer| && Traced(before, plans, traces) && OfOthers(e, r, q)
    ensures answer[i] < |plans| && answer[i] !in answer[..i] && forall a :: a in e.actions ==> NotOf(a, q)
  {
    hide L.History;
    assert answer[i] in answer;
  }

  lemma ArrivalsKeep(policy: RetryPolicy, s: System, e: Encounter, r: L.RunId, q: RequestId)
    requires Inv(policy, s) && q !in s.open.retries && OfOthers(e, r, q)
    ensures Inv(policy, History(policy, s, e.arrivals)) && q !in History(policy, s, e.arrivals).open.retries
  {
    hide Inv, History;
    OthersKeepRequest(policy, s, e.arrivals, q);
  }

  /** What others do at any moment leaves the run where it is. */
  lemma OthersKeepStages(before: seq<Entry>, plans: seq<Entry>, traces: Traces, r: L.RunId, answer: seq<PlanId>, i: nat,
                         statuses: map<PlanId, L.PlanStatus>, stage: L.Stage, e: Encounter, q: RequestId, moment: Moment)
    requires Traced(before, plans, traces) && OfOthers(e, r, q)
    requires i < |answer| && Stages(traces, r, answer, i, statuses, stage)
    ensures Traced(before, Interfered(plans, e.steps(moment)), NotedOthers(traces, e.steps(moment)))
    ensures Stages(NotedOthers(traces, e.steps(moment)), r, answer, i, statuses, stage)
    ensures |Interfered(plans, e.steps(moment))| == |plans|
  {
    TracedOthers(before, plans, traces, e.steps(moment));
    hide Traced, Interfered;
    var after := NotedOthers(traces, e.steps(moment));
    forall k | 0 <= k < |traces|
      ensures L.Own(after[k], r) == L.Own(traces[k], r)
      ensures Selects(traces[k], r) ==> Selects(after[k], r)
    {
      L.OwnOthers(traces[k], e.steps(moment)(k), r);
    }
    hide L.Own, L.Reached, L.ByOthers, NotOf;
  }

  /** One of the run's own steps brings the plan at hand to the next stage. */
  lemma StageStep(traces: Traces, r: L.RunId, answer: seq<PlanId>, i: nat, statuses: map<PlanId, L.PlanStatus>,
                  stage: L.Stage, a: L.Step, next: L.Stage)
    requires i < |answer| && Stages(traces, r, answer, i, statuses, stage)
    requires match a
             case Mark(o) => o == r && stage == L.Selected && next == L.Marked
             case Carry(o) => o == r && stage == L.Marked && next == L.Carried
             case Settle(o, status) => o == r && stage == L.Carried && next == L.Settled(status) && L.IsFinal(status)
             case _ => false
    requires answer[i] !in answer[..i]
    ensures Stages(Noted(traces, [answer[i]], a), r, answer, i, statuses, next)
  {
    hide At, L.IsFinal;
    var k := answer[i];
    if k < |traces| {
      AtStep(traces[k], r, stage, a, next);
    }
    hide Noted;
  }

  lemma AtStep(trace: seq<L.Step>, r: L.RunId, stage: L.Stage, a: L.Step, next: L.Stage)
    requires At(trace, r, stage)
    requires match a
             case Mark(o) => o == r && stage == L.Selected && next == L.Marked
             case Carry(o) => o == r && stage == L.Marked && next == L.Carried
             case Settle(o, status) => o == r && stage == L.Carried && next == L.Settled(status) && L.IsFinal(status)
             case _ => false
    ensures At(trace + [a], r, next)
  {
    L.OwnPush(trace, a, r);
    hide L.Own;
  }

  lemma CommitKeepsStages(traces: Traces, r: L.RunId, answer: seq<PlanId>, i: nat, statuses: map<PlanId, L.PlanStatus>,
                          stage: L.Stage)
    requires i <= |answer| && Stages(traces, r, answer, i, statuses, stage)
    ensures Stages(Noted(traces, answer, L.Commit(r)), r, answer, i, statuses, stage)
  {
    var after := Noted(traces, answer, L.Commit(r));
    forall k | 0 <= k < |traces|
      ensures L.Own(after[k], r) == L.Own(traces[k], r)
      ensures Selects(traces[k], r) ==> Selects(after[k], r)
    {
      L.OwnPush(traces[k], L.Commit(r), r);
    }
    hide L.Own, L.Reached;
  }

  lemma StageDone(traces: Traces, r: L.RunId, answer: seq<PlanId>, i: nat, statuses: map<PlanId, L.PlanStatus>,
                  status: L.PlanStatus)
    requires i < |answer| && Stages(traces, r, answer, i, statuses, L.Settled(status))
    requires answer[i] !in answer[..i]
    ensures Stages(traces, r, answer, i + 1, statuses[answer[i] := status], L.Selected)
  {
    hide At;
    assert answer[..i + 1] == answer[..i] + [answer[i]];
  }

  lemma Outcomes(status: L.PlanStatus)
    requires status in {L.Executed, L.Blocked, L.PlanFailed}
    ensures L.IsFinal(status)
  {
  }

  lemma CountStep(before: seq<Entry>, limit: nat, answer: seq<PlanId>, i: nat, statuses: map<PlanId, L.PlanStatus>,
                  status: L.PlanStatus)
    requires QueryAnswer(before, limit, answer) && i < |answer|
    ensures forall x :: CountOf(answer[..i + 1], statuses[answer[i] := status], x)
                     == CountOf(answer[..i], statuses, x) + if status == x then 1 else 0
  {
    assert answer[..i + 1][..i] == answer[..i];
    forall x
      ensures CountOf(answer[..i], statuses[answer[i] := status], x) == CountOf(answer[..i], statuses, x)
    {
      CountElsewhere(answer[..i], statuses, answer[i], status, x);
    }
  }

  lemma {:induction false} CountElsewhere(ids: seq<PlanId>, statuses: map<PlanId, L.PlanStatus>, id: PlanId,
                                          status: L.PlanStatus, x: L.PlanStatus)
    requires id !in ids
    ensures CountOf(ids, statuses[id := status], x) == CountOf(ids, statuses, x)
    decreases |ids|
  {
    if ids != [] {
      CountElsewhere(ids[..|ids| - 1], statuses, id, status, x);
    }
  }

  lemma AtMost(before: seq<Entry>, limit: nat, answer: seq<PlanId>)
    requires QueryAnswer(before, limit, answer)
    ensures |answer| <= limit
  {
  }

  lemma SameLength(before: seq<Entry>, plans: seq<Entry>, traces: Traces)
    requires Traced(before, plans, traces)
    ensures |before| == |plans| == |traces|
  {
    hide L.History;
  }

  /** The last commit and the departure. */
  lemma RunEnds(traces: Traces, r: L.RunId, answer: seq<PlanId>, statuses: map<PlanId, L.PlanStatus>)
    requires Stages(traces, r, answer, |answer|, statuses, L.Selected)
    ensures
      var after := Noted(Noted(traces, answer, L.Commit(r)), answer, L.Leave(r));
      && statuses.Keys == (set id | id in answer)
      && forall k :: 0 <= k < |traces| ==>
           if k in answer then L.RunsThrough(after[k], r, statuses[k]) else L.Own(after[k], r) == []
  {
    hide L.Own, L.Reached;
    assert answer[..|answer|] == answer;
    var after := Noted(Noted(traces, answer, L.Commit(r)), answer, L.Leave(r));
    forall k | 0 <= k < |traces| && k in answer
      ensures L.RunsThrough(after[k], r, statuses[k])
    {
      assert after[k] == traces[k] + [L.Commit(r)] + [L.Leave(r)];
      assert after[k][..|after[k]| - 2] == traces[k];
    }
  }

  lemma DecisionTrace(p: L.Plan, q: L.RequestId, d: L.Decision, meanwhile: seq<L.Step>)
    requires p.status == L.PendingApproval && q !in p.decisions && forall a :: a in meanwhile ==> NotAbout(a, q)
    ensures
      var open := L.History(L.Next(p, L.Read(q, d)), meanwhile);
      && q in open.decisions && open.decisions[q] == d
      && L.History(p, [L.Read(q, d)] + meanwhile + [L.Write(q)]) == L.Next(open, L.Write(q))
  {
    L.HistoryPush(p, [], L.Read(q, d));
    assert [] + [L.Read(q, d)] == [L.Read(q, d)];
    L.HistoryConcat(p, [L.Read(q, d)], meanwhile);
    L.HistoryPush(p, [L.Read(q, d)] + meanwhile, L.Write(q));
    OthersKeepDecision(L.Next(p, L.Read(q, d)), meanwhile, q);
    assert L.History(p, []) == p;
  }

  /** The source found stays in the table, and the request that found it stays open, until it creates the retry. */
  lemma RetryTrace(policy: RetryPolicy, s: System, q: RequestId, others: seq<Action>, admitted: bool)
    requires Inv(policy, s) && PlanSource(s.rows).Some? && q !in s.open.retries && forall a :: a in others ==> NotOf(a, q)
    ensures
      var open := History(policy, Next(policy, s, FindForPlan(q)), others);
      var after := History(policy, s, [FindForPlan(q)] + others + [CreateRetry(q, admitted)]);
      var source := PlanSource(s.rows).value;
      && source < |open.rows| && q in open.open.retries
      && after == System(if admitted then open.rows + [ManualRow(open.rows[source], source, Planned)] else open.rows,
                         open.batch, open.open.(retries := open.open.retries - {q}))
      && Inv(policy, after)
  {
    HistoryPush(policy, s, [], FindForPlan(q));
    assert [] + [FindForPlan(q)] == [FindForPlan(q)];
    HistoryConcat(policy, s, [FindForPlan(q)], others);
    HistoryPush(policy, s, [FindForPlan(q)] + others, CreateRetry(q, admitted));
    assert History(policy, s, []) == s;
    NextKeepsInv(policy, s, FindForPlan(q));
    OthersKeepRequest(policy, Next(policy, s, FindForPlan(q)), others, q);
    NextKeepsInv(policy, History(policy, Next(policy, s, FindForPlan(q)), others), CreateRetry(q, admitted));
    hide Inv, PlanSource, History, ManualRow;
    FoundInTable(s.rows);
  }

  lemma FoundInTable(rows: Table)
    ensures PlanSource(rows).Some? ==> PlanSource(rows).value < |rows|
  {
  }
}
