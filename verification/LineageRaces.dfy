/** What overlapping requests can spoil in the lineage, and exactly which step lets them. */
module LineageRaces {
  import opened Common
  import opened WebhookLineage

  /** A request that reads or finds its source does not share it with another one where a plan is involved. */
  ghost predicate Alone(s: System, a: Action) {
    match a
    case ReadForRetry(q, id) =>
      q !in s.open.retries && id < |s.rows| && IsDeadLettered(s.rows[id]) ==>
        forall p :: p in s.open.retries && s.open.retries[p].source == id ==> s.open.retries[p].origin == Manual
    case FindForPlan(q) =>
      q !in s.open.retries && PlanSource(s.rows).Some? ==>
        forall p :: p in s.open.retries ==> s.open.retries[p].source != PlanSource(s.rows).value
    case _ => true
  }

  ghost predicate AllAlone(policy: RetryPolicy, s: System, actions: seq<Action>) {
    actions != [] ==>
      && AllAlone(policy, s, actions[..|actions| - 1])
      && Alone(History(policy, s, actions[..|actions| - 1]), actions[|actions| - 1])
  }

  /** A plan never retries what anyone has retried before. */
  ghost predicate PlansUntouched(rows: Table) {
    forall i, j ::
      0 <= i < j < |rows| && rows[j].origin == Planned && rows[i].dispatch.parent.Some?
      ==> rows[i].dispatch.parent != rows[j].dispatch.parent
  }

  /** Every planned retry under way has its source to itself. */
  ghost predicate PlansAlone(s: System) {
    forall q :: q in s.open.retries && s.open.retries[q].origin == Planned ==>
      && Childless(s.rows, s.open.retries[q].source)
      && forall p :: p in s.open.retries && p != q ==> s.open.retries[p].source != s.open.retries[q].source
  }

  /** Rows keep how they came about; at most one is new, and it has the given parent. */
  ghost predicate Grows(rows: Table, after: Table, parent: Option<ExecutionId>, origin: Origin) {
    && |rows| <= |after| <= |rows| + 1
    && (forall i :: 0 <= i < |rows| ==> after[i].dispatch.parent == rows[i].dispatch.parent && after[i].origin == rows[i].origin)
    && (|after| > |rows| ==> after[|rows|].dispatch.parent == parent && after[|rows|].origin == origin)
  }

  lemma GrowsKeepsChildless(rows: Table, after: Table, parent: Option<ExecutionId>, origin: Origin, id: ExecutionId)
    requires Grows(rows, after, parent, origin) && Childless(rows, id) && (|after| > |rows| ==> parent != Some(id))
    ensures Childless(after, id)
  {
  }

  lemma GrowsKeepsPlans(rows: Table, after: Table, parent: Option<ExecutionId>, origin: Origin)
    requires Grows(rows, after, parent, origin) && PlansUntouched(rows)
    requires |after| > |rows| && origin == Planned ==> parent.Some? && Childless(rows, parent.value)
    ensures PlansUntouched(after)
  {
  }

  /** A dispatched row was never run before, so it is no dead letter; only it gets an automatic child. */
  lemma DispatchGrows(policy: RetryPolicy, s: System, paused: bool, outcome: Outcome, now: int)
    requires Inv(policy, s) && s.batch != [] && s.batch[0] < |s.rows|
    ensures Grows(s.rows, DispatchOne(policy, s.rows, s.batch[0], paused, outcome, now), Some(s.batch[0]), Automatic)
    ensures Dispatchable(s.rows[s.batch[0]], paused, now) ==>
      Untouched(s.rows[s.batch[0]]) && !s.rows[s.batch[0]].dispatch.deadLettered
    ensures Dispatchable(s.rows[s.batch[0]], paused, now) || DispatchOne(policy, s.rows, s.batch[0], paused, outcome, now) == s.rows
  {
    assert s.batch[0] in s.batch;
    assert RowOk(policy, s.rows, s.batch[0]);
  }

  lemma AloneKeeps(policy: RetryPolicy, s: System, a: Action)
    requires Inv(policy, s) && PlansUntouched(s.rows) && PlansAlone(s) && Alone(s, a)
    ensures PlansUntouched(Next(policy, s, a).rows) && PlansAlone(Next(policy, s, a))
  {
    if a.FindForPlan? || a.ReadForRetry? {
      OpenedAlone(policy, s, a);
    } else if a.CreateRetry? {
      CreatedAlone(policy, s, a);
    } else {
      var parent, origin := OthersGrow(policy, s, a);
      hide Inv, PlansUntouched, PlansAlone, Next, Grows;
      GrowsKeepsPlans(s.rows, Next(policy, s, a).rows, parent, origin);
      SourcesStayChildless(policy, s, Next(policy, s, a), parent, origin);
    }
  }

  /** No other action adds a child to a dead letter, or a planned row. */
  lemma OthersGrow(policy: RetryPolicy, s: System, a: Action) returns (parent: Option<ExecutionId>, origin: Origin)
    requires Inv(policy, s) && !a.FindForPlan? && !a.ReadForRetry? && !a.CreateRetry?
    ensures
      var t := Next(policy, s, a);
      && Grows(s.rows, t.rows, parent, origin) && t.open.retries == s.open.retries && origin != Planned
      && (|t.rows| > |s.rows| && parent.Some? ==>
            forall q :: q in s.open.retries ==> s.open.retries[q].source != parent.value)
  {
    hide RowsOk, ChildrenOk, BatchOk, PlanSource, ManualRow;
    parent, origin := None, if a.Ingest? then Ingested else Direct;
    if a.DispatchNext? && s.batch != [] && s.batch[0] < |s.rows| {
      parent, origin := Some(s.batch[0]), Automatic;
      DispatchGrows(policy, s, a.paused, a.outcome, a.now);
      hide DispatchOne;
    }
  }

  lemma OpenedAlone(policy: RetryPolicy, s: System, a: Action)
    requires Inv(policy, s) && PlansUntouched(s.rows) && PlansAlone(s) && Alone(s, a)
    requires a.FindForPlan? || a.ReadForRetry?
    ensures PlansUntouched(Next(policy, s, a).rows) && PlansAlone(Next(policy, s, a))
  {
    FoundIsChildless(policy, s);
    hide Inv, PlanSource, Childless, IsDeadLettered, PlansUntouched;
  }

  lemma CreatedAlone(policy: RetryPolicy, s: System, a: Action)
    requires Inv(policy, s) && PlansUntouched(s.rows) && PlansAlone(s) && a.CreateRetry?
    ensures PlansUntouched(Next(policy, s, a).rows) && PlansAlone(Next(policy, s, a))
  {
    var t := Next(policy, s, a);
    hide RowsOk, ChildrenOk, BatchOk, PlansUntouched, Childless;
    if a.q in s.open.retries {
      var retry := s.open.retries[a.q];
      assert Grows(s.rows, t.rows, Some(retry.source), retry.origin);
      hide Grows;
      GrowsKeepsPlans(s.rows, t.rows, Some(retry.source), retry.origin);
      RestStaysChildless(s, t, a.q);
    }
  }

  lemma FoundIsChildless(policy: RetryPolicy, s: System)
    requires Inv(policy, s)
    ensures PlanSource(s.rows).Some? ==> Childless(s.rows, PlanSource(s.rows).value)
  {
    hide ChildrenOk, BatchOk, OpenOk, RowOk;
    var source := PlanSource(s.rows);
    if source.Some? {
      WindowSeesEveryRetry(policy, s.rows, source.value);
    }
  }

  lemma SourcesStayChildless(policy: RetryPolicy, s: System, t: System, parent: Option<ExecutionId>, origin: Origin)
    requires PlansAlone(s) && t.open.retries == s.open.retries && Grows(s.rows, t.rows, parent, origin)
    requires |t.rows| > |s.rows| && parent.Some? ==>
      forall q :: q in s.open.retries ==> s.open.retries[q].source != parent.value
    ensures PlansAlone(t)
  {
    forall q | q in t.open.retries && t.open.retries[q].origin == Planned
      ensures Childless(t.rows, t.open.retries[q].source)
    {
      GrowsKeepsChildless(s.rows, t.rows, parent, origin, s.open.retries[q].source);
    }
  }

  lemma RestStaysChildless(s: System, t: System, q: RequestId)
    requires PlansAlone(s) && q in s.open.retries && t.open.retries == s.open.retries - {q}
    requires Grows(s.rows, t.rows, Some(s.open.retries[q].source), s.open.retries[q].origin)
    ensures PlansAlone(t)
  {
    var retry := s.open.retries[q];
    forall p | p in t.open.retries && t.open.retries[p].origin == Planned
      ensures Childless(t.rows, t.open.retries[p].source)
    {
      assert s.open.retries[q].source != s.open.retries[p].source;
      GrowsKeepsChildless(s.rows, t.rows, Some(retry.source), retry.origin, s.open.retries[p].source);
    }
  }

  lemma {:induction false} AloneHistories(policy: RetryPolicy, s: System, actions: seq<Action>)
    requires Inv(policy, s) && PlansUntouched(s.rows) && PlansAlone(s) && AllAlone(policy, s, actions)
    ensures Inv(policy, History(policy, s, actions))
    ensures PlansUntouched(History(policy, s, actions).rows) && PlansAlone(History(policy, s, actions))
    decreases |actions|
  {
    if actions != [] {
      var init, a := actions[..|actions| - 1], actions[|actions| - 1];
      AloneHistories(policy, s, init);
      hide Inv, PlansUntouched, PlansAlone, Next, Alone;
      NextKeepsInv(policy, History(policy, s, init), a);
      AloneKeeps(policy, History(policy, s, init), a);
    }
  }

  /** Over every history in which no retry overlaps a plan's retry of its source, a plan never retries
      what anyone has retried before. */
  lemma PlansRetryOnce(policy: RetryPolicy, actions: seq<Action>)
    requires AllAlone(policy, EMPTY, actions)
    ensures PlansUntouched(History(policy, EMPTY, actions).rows)
  {
    AloneHistories(policy, EMPTY, actions);
  }

  lemma TwoSteps(policy: RetryPolicy, s: System, a: Action, b: Action)
    ensures History(policy, s, [a, b]) == Next(policy, Next(policy, s, a), b)
    ensures a.CreateRetry? && b.CreateRetry? ==> AllAlone(policy, s, [a, b])
  {
    assert [a, b][..1] == [a] && [a][..0] == [];
    assert History(policy, s, [a]) == Next(policy, History(policy, s, []), a);
    assert a.CreateRetry? ==> AllAlone(policy, s, [a]);
  }

  /** If two requests hold one source, the planned one can be made to come second. */
  lemma SharedSourceRetriedTwice(policy: RetryPolicy, s: System, first: RequestId, second: RequestId) returns (later: seq<Action>)
    requires first in s.open.retries && second in s.open.retries && first != second
    requires s.open.retries[first].source == s.open.retries[second].source < |s.rows|
    requires s.open.retries[second].origin == Planned
    ensures AllAlone(policy, s, later) && !PlansUntouched(History(policy, s, later).rows)
  {
    later := [CreateRetry(first, true), CreateRetry(second, true)];
    TwoSteps(policy, s, later[0], later[1]);
    var rows := History(policy, s, later).rows;
    hide History, AllAlone;
    assert rows[|s.rows|].dispatch.parent == rows[|s.rows| + 1].dispatch.parent == Some(s.open.retries[first].source);
    assert rows[|s.rows| + 1].origin == Planned;
  }

  /** A step is safe for the plans if and only if it does not make a retry share a plan's source. */
  lemma PlansSafeIff(policy: RetryPolicy, s: System, a: Action)
    requires Inv(policy, s) && PlansUntouched(s.rows) && PlansAlone(s)
    ensures Alone(s, a) <==>
      forall later :: AllAlone(policy, Next(policy, s, a), later) ==>
        PlansUntouched(History(policy, Next(policy, s, a), later).rows)
  {
    var t := Next(policy, s, a);
    NextKeepsInv(policy, s, a);
    if Alone(s, a) {
      AloneKeeps(policy, s, a);
      forall later | AllAlone(policy, t, later)
        ensures PlansUntouched(History(policy, t, later).rows)
      {
        AloneHistories(policy, t, later);
      }
    } else {
      var first, second := Sharing(policy, s, a);
      var later := SharedSourceRetriedTwice(policy, t, first, second);
    }
  }

  lemma Sharing(policy: RetryPolicy, s: System, a: Action) returns (first: RequestId, second: RequestId)
    requires Inv(policy, s) && !Alone(s, a)
    ensures
      var t := Next(policy, s, a);
      && first in t.open.retries && second in t.open.retries && first != second
      && t.open.retries[first].source == t.open.retries[second].source < |t.rows|
      && t.open.retries[second].origin == Planned
  {
    hide RowsOk, ChildrenOk, BatchOk, PlanSource;
    match a
    case ReadForRetry(q, id) =>
      first := q;
      second :| second in s.open.retries && s.open.retries[second].source == id && s.open.retries[second].origin != Manual;
    case FindForPlan(q) =>
      second := q;
      first :| first in s.open.retries && s.open.retries[first].source == PlanSource(s.rows).value;
  }

  // ---------------------------------------------------------------- late cancellations

  /** No row is run and fails retryably while a request to cancel it is under way. */
  ghost predicate Prompt(s: System, a: Action) {
    match a
    case DispatchNext(paused, outcome, now) =>
      && s.batch != [] && s.batch[0] < |s.rows| && Dispatchable(s.rows[s.batch[0]], paused, now)
      && s.rows[s.batch[0]].status == Pending && outcome == Outcome(Failed, true)
      ==> forall q :: q in s.open.cancels ==> s.open.cancels[q] != s.batch[0]
    case _ => true
  }

  ghost predicate AllPrompt(policy: RetryPolicy, s: System, actions: seq<Action>) {
    actions != [] ==>
      && AllPrompt(policy, s, actions[..|actions| - 1])
      && Prompt(History(policy, s, actions[..|actions| - 1]), actions[|actions| - 1])
  }

  /** A retried row and a dead letter are failed and stay so. */
  ghost predicate FailedStay(rows: Table) {
    && (forall i, p :: 0 <= i < |rows| && 0 <= p < |rows| && rows[i].dispatch.parent == Some(p) ==> rows[p].status == Failed)
    && forall i :: 0 <= i < |rows| && rows[i].dispatch.deadLettered ==> rows[i].status == Failed
  }

  /** No cancellation under way is for a retried row or a dead letter. */
  ghost predicate CancelsHarmless(s: System) {
    forall q :: q in s.open.cancels ==>
      var id := s.open.cancels[q];
      id < |s.rows| && Childless(s.rows, id) && !s.rows[id].dispatch.deadLettered
  }

  /** What a dispatch does, row by row: only the head changes, and at most one row is appended, its child. */
  lemma DispatchEffect(policy: RetryPolicy, s: System, paused: bool, outcome: Outcome, now: int)
    requires Inv(policy, s) && s.batch != [] && s.batch[0] < |s.rows|
    ensures
      var id, after := s.batch[0], DispatchOne(policy, s.rows, s.batch[0], paused, outcome, now);
      var fails := Dispatchable(s.rows[id], paused, now) && s.rows[id].status == Pending && outcome == Outcome(Failed, true);
      && Grows(s.rows, after, Some(id), Automatic)
      && (forall k :: 0 <= k < |s.rows| && k != id ==> after[k] == s.rows[k])
      && (after[id].dispatch.deadLettered != s.rows[id].dispatch.deadLettered || |after| > |s.rows| ==> fails)
      && (fails ==> after[id].status == Failed)
      && (|after| > |s.rows| ==> !after[|s.rows|].dispatch.deadLettered)
      && (after[id] == s.rows[id] || (Childless(s.rows, id) && !s.rows[id].dispatch.deadLettered))
  {
    assert s.batch[0] in s.batch;
    assert RowOk(policy, s.rows, s.batch[0]);
    DispatchGrows(policy, s, paused, outcome, now);
    if s.rows[s.batch[0]].webhook {
      UnspentIsChildless(policy, s.rows, s.batch[0]);
    }
    hide Inv, Grows, Childless;
  }

  lemma DispatchPrompt(policy: RetryPolicy, s: System, a: Action)
    requires Inv(policy, s) && FailedStay(s.rows) && CancelsHarmless(s) && Prompt(s, a) && a.DispatchNext?
    ensures FailedStay(Next(policy, s, a).rows) && CancelsHarmless(Next(policy, s, a))
  {
    ParentsInTable(policy, s);
    if s.batch != [] && s.batch[0] < |s.rows| {
      DispatchEffect(policy, s, a.paused, a.outcome, a.now);
    }
    hide Inv, DispatchOne;
  }

  lemma RunDirectPrompt(policy: RetryPolicy, s: System, a: Action)
    requires Inv(policy, s) && FailedStay(s.rows) && CancelsHarmless(s) && a.RunDirect?
    ensures FailedStay(Next(policy, s, a).rows) && CancelsHarmless(Next(policy, s, a))
  {
    if a.id < |s.rows| && Untouched(s.rows[a.id]) {
      UnspentIsChildless(policy, s.rows, a.id);
      assert RowOk(policy, s.rows, a.id);
      hide Inv, PlanSource;
    }
  }

  lemma CancelPrompt(policy: RetryPolicy, s: System, a: Action)
    requires Inv(policy, s) && FailedStay(s.rows) && CancelsHarmless(s) && (a.ReadForCancel? || a.WriteCancel?)
    ensures FailedStay(Next(policy, s, a).rows) && CancelsHarmless(Next(policy, s, a))
  {
    if a.ReadForCancel? && a.id < |s.rows| && s.rows[a.id].status == Pending {
      PendingIsUntouched(policy, s.rows, a.id);
      UnspentIsChildless(policy, s.rows, a.id);
      assert RowOk(policy, s.rows, a.id);
    }
    hide Inv, PlanSource;
  }

  lemma CreatePrompt(policy: RetryPolicy, s: System, a: Action)
    requires Inv(policy, s) && FailedStay(s.rows) && CancelsHarmless(s) && a.CreateRetry?
    ensures FailedStay(Next(policy, s, a).rows) && CancelsHarmless(Next(policy, s, a))
  {
    ParentsInTable(policy, s);
    hide RowsOk, ChildrenOk, BatchOk, PlanSource;
  }

  lemma PromptKeeps(policy: RetryPolicy, s: System, a: Action)
    requires Inv(policy, s) && FailedStay(s.rows) && CancelsHarmless(s) && Prompt(s, a)
    ensures FailedStay(Next(policy, s, a).rows) && CancelsHarmless(Next(policy, s, a))
  {
    if a.DispatchNext? {
      DispatchPrompt(policy, s, a);
    } else if a.RunDirect? {
      RunDirectPrompt(policy, s, a);
    } else if a.ReadForCancel? || a.WriteCancel? {
      CancelPrompt(policy, s, a);
    } else if a.CreateRetry? {
      CreatePrompt(policy, s, a);
    } else {
      ParentsInTable(policy, s);
      hide Inv, PlanSource;
    }
  }

  lemma ParentsInTable(policy: RetryPolicy, s: System)
    requires Inv(policy, s)
    ensures forall i :: 0 <= i < |s.rows| && s.rows[i].dispatch.parent.Some? ==> s.rows[i].dispatch.parent.value < |s.rows|
  {
    forall i | 0 <= i < |s.rows| && s.rows[i].dispatch.parent.Some?
      ensures s.rows[i].dispatch.parent.value < |s.rows|
    {
      assert RowOk(policy, s.rows, i);
    }
  }

  lemma {:induction false} PromptHistories(policy: RetryPolicy, s: System, actions: seq<Action>)
    requires Inv(policy, s) && FailedStay(s.rows) && CancelsHarmless(s) && AllPrompt(policy, s, actions)
    ensures Inv(policy, History(policy, s, actions))
    ensures FailedStay(History(policy, s, actions).rows) && CancelsHarmless(History(policy, s, actions))
    decreases |actions|
  {
    if actions != [] {
      var init, a := actions[..|actions| - 1], actions[|actions| - 1];
      PromptHistories(policy, s, init);
      hide Inv, FailedStay, CancelsHarmless, Next, Prompt;
      NextKeepsInv(policy, History(policy, s, init), a);
      PromptKeeps(policy, History(policy, s, init), a);
    }
  }

  /** Over every history in which no row fails retryably while its cancellation is under way, retried rows
      and dead letters are failed. */
  lemma RetriedRowsStayFailed(policy: RetryPolicy, actions: seq<Action>)
    requires AllPrompt(policy, EMPTY, actions)
    ensures FailedStay(History(policy, EMPTY, actions).rows)
  {
    PromptHistories(policy, EMPTY, actions);
  }

  /** A step keeps retried rows and dead letters failed for good if and only if it is prompt. */
  lemma FailedStayIff(policy: RetryPolicy, s: System, a: Action)
    requires Inv(policy, s) && FailedStay(s.rows) && CancelsHarmless(s)
    ensures Prompt(s, a) <==>
      forall later :: AllPrompt(policy, Next(policy, s, a), later) ==>
        FailedStay(History(policy, Next(policy, s, a), later).rows)
  {
    var t := Next(policy, s, a);
    NextKeepsInv(policy, s, a);
    if Prompt(s, a) {
      PromptKeeps(policy, s, a);
      forall later | AllPrompt(policy, t, later)
        ensures FailedStay(History(policy, t, later).rows)
      {
        PromptHistories(policy, t, later);
      }
    } else {
      var later := LateCancel(policy, s, a);
    }
  }

  /** The cancellation under way then lands on a retried row or on a dead letter. */
  lemma LateCancel(policy: RetryPolicy, s: System, a: Action) returns (later: seq<Action>)
    requires Inv(policy, s) && !Prompt(s, a)
    ensures AllPrompt(policy, Next(policy, s, a), later)
    ensures !FailedStay(History(policy, Next(policy, s, a), later).rows)
  {
    var id, t := s.batch[0], Next(policy, s, a);
    var q :| q in s.open.cancels && s.open.cancels[q] == id;
    later := [WriteCancel(q)];
    assert later[..0] == [];
    assert History(policy, t, later) == Next(policy, History(policy, t, []), WriteCancel(q));
    hide Inv, PlanSource;
    var rows := History(policy, t, later).rows;
    assert rows[id].status == Cancelled;
    assert rows[id].dispatch.deadLettered || rows[|s.rows|].dispatch.parent == Some(id);
  }

  lemma FourSteps(policy: RetryPolicy, s: System, a: Action, b: Action, c: Action, d: Action)
    ensures History(policy, s, [a, b, c, d]) == Next(policy, Next(policy, Next(policy, Next(policy, s, a), b), c), d)
  {
    HistoryPush(policy, s, [a, b, c], d);
    HistoryPush(policy, s, [a, b], c);
    TwoSteps(policy, s, a, b);
    hide History;
    assert [a, b, c] + [d] == [a, b, c, d] && [a, b] + [c] == [a, b, c];
  }

  /** One event, cancelled too late: its first attempt ends cancelled although it failed and was retried. */
  lemma LateCancelRenamesParent(policy: RetryPolicy)
    requires policy.maxAttempts == 2
    ensures
      var scanned := System([Row(Pending, true, 0, NO_DISPATCH, false, Ingested)], [0], NO_REQUESTS);
      var after := Next(policy, Next(policy, Next(policy, scanned, ReadForCancel(0, 0)),
                                     DispatchNext(false, Outcome(Failed, true), 0)), WriteCancel(0));
      && scanned == History(policy, EMPTY, [Ingest(0), Scan(1)])
      && |after.rows| == 2 && after.rows[0].status == Cancelled && after.rows[1].dispatch.parent == Some(0)
  {
    OneScanned(policy);
    hide History, PlanSource, PendingIds;
    var first := Row(Pending, true, 0, NO_DISPATCH, false, Ingested);
    var asked := Next(policy, System([first], [0], NO_REQUESTS), ReadForCancel(0, 0));
    assert asked == System([first], [0], Open(map[0 := 0], map[]));
    var failed := AfterRun(first, Outcome(Failed, true));
    assert ApplyRetryPolicy(policy, [failed], 0, 0) == [failed, RetryRow(failed, 0, policy.backoffSeconds)];
  }

  lemma OneScanned(policy: RetryPolicy)
    ensures History(policy, EMPTY, [Ingest(0), Scan(1)])
         == System([Row(Pending, true, 0, NO_DISPATCH, false, Ingested)], [0], NO_REQUESTS)
  {
    TwoSteps(policy, EMPTY, Ingest(0), Scan(1));
    hide History;
    var first := Row(Pending, true, 0, NO_DISPATCH, false, Ingested);
    assert Next(policy, EMPTY, Ingest(0)).rows == [first];
    assert PendingIds([first], 0, 1) == [0];
  }

  /** One dead letter, found by two plans at once, is retried by both. */
  lemma OverlappingPlansRetryTwice(policy: RetryPolicy, s: System, id: ExecutionId)
    requires PlanSource(s.rows) == Some(id) && id < |s.rows| && s.open == NO_REQUESTS
    ensures
      var actions := [FindForPlan(0), FindForPlan(1), CreateRetry(0, true), CreateRetry(1, true)];
      var rows := History(policy, s, actions).rows;
      |rows| == |s.rows| + 2 && rows[|s.rows|].dispatch.parent == rows[|s.rows| + 1].dispatch.parent == Some(id)
  {
    FourSteps(policy, s, FindForPlan(0), FindForPlan(1), CreateRetry(0, true), CreateRetry(1, true));
    hide History, PlanSource;
    var retry := Retry(id, Planned);
    var found := Next(policy, Next(policy, s, FindForPlan(0)), FindForPlan(1));
    assert found == System(s.rows, s.batch, Open(map[], map[0 := retry, 1 := retry]));
    var once := Next(policy, found, CreateRetry(0, true));
    assert once == System(s.rows + [ManualRow(s.rows[id], id, Planned)], s.batch, Open(map[], map[1 := retry]));
  }

  /** Such a dead letter comes about: one event whose only attempt fails retryably. */
  lemma OneDeadLetter(policy: RetryPolicy)
    requires policy.maxAttempts == 1
    ensures
      var s := History(policy, EMPTY, [Ingest(0), Scan(1), DispatchNext(false, Outcome(Failed, true), 0)]);
      PlanSource(s.rows) == Some(0) && |s.rows| == 1 && s.open == NO_REQUESTS
  {
    var run := DispatchNext(false, Outcome(Failed, true), 0);
    OneScanned(policy);
    HistoryPush(policy, EMPTY, [Ingest(0), Scan(1)], run);
    assert [Ingest(0), Scan(1)] + [run] == [Ingest(0), Scan(1), run];
    hide History, PendingIds, PlanSource;
    var failed := AfterRun(Row(Pending, true, 0, NO_DISPATCH, false, Ingested), Outcome(Failed, true));
    assert ApplyRetryPolicy(policy, [failed], 0, 0) == [DeadLetter(failed)];
    LoneDeadLetter(DeadLetter(failed));
  }

  lemma LoneDeadLetter(row: Row)
    requires IsDeadLettered(row) && row.dispatch.parent == None
    ensures PlanSource([row]) == Some(0)
  {
    assert RetriedSourceIds([row], 0) == {};
  }
}
