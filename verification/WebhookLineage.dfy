/** The executions of one tenant: ingestion, direct creation, single-worker dispatch, automatic retry, dead-lettering,
    and manual or plan-driven retry, as a state machine over the execution table. */
module WebhookLineage {
  import opened Common

  /** An execution's id is its position in the table: rows are stored in creation order. */
  type ExecutionId = nat

  /** The `dispatch` part of an execution's input data. */
  datatype Dispatch = Dispatch(attempt: Option<int>, root: Option<ExecutionId>, parent: Option<ExecutionId>,
                               nextAttemptAt: Option<int>, deadLettered: bool, manualRetry: bool)

  const NO_DISPATCH := Dispatch(None, None, None, None, false, false)

  /** How a row came to be; only direct rows are not webhook rows. The program does not store this;
      it is here to state what histories keep. */
  datatype Origin = Ingested | Automatic | Manual | Planned | Direct

  datatype Row = Row(status: Status, webhook: bool, workflow: nat, dispatch: Dispatch, retryableLog: bool, origin: Origin)

  type Table = seq<Row>

  datatype RetryPolicy = RetryPolicy(maxAttempts: int, backoffSeconds: int)

  function AttemptNumber(d: Dispatch): int {
    match d.attempt
    case None => 1
    case Some(n) => if n < 1 then 1 else n
  }

  predicate IsRetryDue(d: Dispatch, now: int) {
    d.nextAttemptAt == None || d.nextAttemptAt.value <= now
  }

  function RootOf(rows: Table, id: ExecutionId): ExecutionId
    requires id < |rows|
  {
    if rows[id].dispatch.root.Some? then rows[id].dispatch.root.value else id
  }

  /** What `run_execution` leaves behind: the status it ends in and whether a log row is retryable. */
  datatype Outcome = Outcome(status: Status, retryable: bool)

  /** The guarded start runs pending rows only; a failure before that guard marks any row failed. */
  function AfterRun(row: Row, outcome: Outcome): Row {
    if row.status == Pending then
      row.(status := outcome.status, retryableLog := outcome.retryable && outcome.status != Pending)
    else if outcome.status == Failed then row.(status := Failed)
    else row
  }

  function RetryRow(row: Row, id: ExecutionId, nextAttemptAt: int): Row {
    Row(Pending, row.webhook, row.workflow,
        row.dispatch.(attempt := Some(AttemptNumber(row.dispatch) + 1),
                      root := if row.dispatch.root.Some? then row.dispatch.root else Some(id),
                      parent := Some(id),
                      nextAttemptAt := Some(nextAttemptAt),
                      deadLettered := false),
        false, Automatic)
  }

  function DeadLetter(row: Row): Row {
    row.(dispatch := row.dispatch.(attempt := Some(AttemptNumber(row.dispatch)), deadLettered := true))
  }

  /** `_apply_retry_policy_after_dispatch`. */
  function ApplyRetryPolicy(policy: RetryPolicy, rows: Table, id: ExecutionId, now: int): Table
    requires id < |rows|
  {
    if rows[id].status != Failed || !rows[id].retryableLog then rows
    else if AttemptNumber(rows[id].dispatch) >= policy.maxAttempts then rows[id := DeadLetter(rows[id])]
    else rows + [RetryRow(rows[id], id, now + policy.backoffSeconds)]
  }

  predicate IsDeadLettered(row: Row) {
    row.status == Failed && row.webhook && row.dispatch.deadLettered
  }

  /** `_build_manual_retry_input_data` on top of `create_execution`. */
  function ManualRow(row: Row, id: ExecutionId, origin: Origin): Row {
    Row(Pending, row.webhook, row.workflow,
        row.dispatch.(attempt := Some(AttemptNumber(row.dispatch) + 1),
                      root := if row.dispatch.root.Some? then row.dispatch.root else Some(id),
                      parent := Some(id),
                      nextAttemptAt := None,
                      deadLettered := false,
                      manualRetry := true),
        false, origin)
  }

  const MAX_DEAD_LETTER_SCAN: nat := 1000

  function WindowStart(rows: Table): nat {
    if |rows| <= MAX_DEAD_LETTER_SCAN then 0 else |rows| - MAX_DEAD_LETTER_SCAN
  }

  /** The ids that rows from position `from` on name as their parent. */
  function RetriedSourceIds(rows: Table, from: nat): set<ExecutionId>
    requires from <= |rows|
  {
    set i | from <= i < |rows| && rows[i].dispatch.parent.Some? :: rows[i].dispatch.parent.value
  }

  /** The oldest eligible dead letter at or after position i that the scanned window shows as not retried. */
  function FindSource(rows: Table, retried: set<ExecutionId>, i: nat): (r: Option<ExecutionId>)
    requires i <= |rows|
    ensures r.Some? ==> i <= r.value < |rows| && r.value !in retried && IsDeadLettered(rows[r.value])
    ensures forall j :: i <= j < |rows| && (r.None? || j < r.value) ==> j in retried || !IsDeadLettered(rows[j])
    decreases |rows| - i
  {
    if i == |rows| then None
    else if i !in retried && IsDeadLettered(rows[i]) then Some(i)
    else FindSource(rows, retried, i + 1)
  }

  function PlanSource(rows: Table): Option<ExecutionId> {
    FindSource(rows, RetriedSourceIds(rows, WindowStart(rows)), WindowStart(rows))
  }

  type RequestId = nat

  /** A retry between the read of its source and its insert. */
  datatype Retry = Retry(source: ExecutionId, origin: Origin)

  /** Requests that have read the table and not yet written: cancellations and retries. */
  datatype Open = Open(cancels: map<RequestId, ExecutionId>, retries: map<RequestId, Retry>)

  const NO_REQUESTS := Open(map[], map[])

  /** The table, the batch the one dispatcher worker still holds, and the requests under way. */
  datatype System = System(rows: Table, batch: seq<ExecutionId>, open: Open)

  datatype Action =
    | Ingest(workflow: nat)
    | CreateDirect(workflow: nat)
    | RunDirect(id: ExecutionId, outcome: Outcome)
    | Scan(limit: nat)
    | DispatchNext(paused: bool, outcome: Outcome, now: int)
    | DropBatch
    | ReadForRetry(q: RequestId, id: ExecutionId)
    | FindForPlan(q: RequestId)
    | CreateRetry(q: RequestId, admitted: bool)
    | ReadForCancel(q: RequestId, id: ExecutionId)
    | WriteCancel(q: RequestId)

  function PendingIds(rows: Table, from: nat, limit: nat): seq<ExecutionId>
    requires from <= |rows|
    decreases |rows| - from
  {
    if from == |rows| || limit == 0 then []
    else if rows[from].status == Pending then [from] + PendingIds(rows, from + 1, limit - 1)
    else PendingIds(rows, from + 1, limit)
  }

  ghost predicate Ascending(ids: seq<ExecutionId>) {
    forall i, j :: 0 <= i < j < |ids| ==> ids[i] < ids[j]
  }

  /** Pending rows in creation order, no more than the limit; one is left out only when older ones fill it. */
  lemma {:induction false} OldestPending(rows: Table, from: nat, limit: nat)
    requires from <= |rows|
    ensures
      var ids := PendingIds(rows, from, limit);
      && |ids| <= limit && Ascending(ids)
      && (forall id :: id in ids ==> from <= id < |rows| && rows[id].status == Pending)
      && forall i :: from <= i < |rows| && rows[i].status == Pending ==> i in ids || (|ids| == limit && forall id :: id in ids ==> id < i)
    decreases |rows| - from
  {
    if from < |rows| && limit > 0 {
      var taken := rows[from].status == Pending;
      OldestPending(rows, from + 1, if taken then limit - 1 else limit);
      if taken {
        FirstTaken(rows, from, limit);
      }
    }
  }

  lemma FirstTaken(rows: Table, from: nat, limit: nat)
    requires from < |rows| && limit > 0 && rows[from].status == Pending
    requires
      var rest := PendingIds(rows, from + 1, limit - 1);
      |rest| <= limit - 1 && Ascending(rest) && forall id :: id in rest ==> from + 1 <= id
    ensures
      var ids, rest := PendingIds(rows, from, limit), PendingIds(rows, from + 1, limit - 1);
      && ids == [from] + rest && |ids| <= limit && Ascending(ids)
      && forall id :: id in ids <==> id == from || id in rest
  {
    var rest := PendingIds(rows, from + 1, limit - 1);
    assert forall j :: 0 <= j < |rest| ==> rest[j] in rest;
  }

  predicate Dispatchable(row: Row, paused: bool, now: int) {
    row.webhook && !paused && IsRetryDue(row.dispatch, now)
  }

  /** One candidate: passed over, or run and then put through the retry policy. */
  function DispatchOne(policy: RetryPolicy, rows: Table, id: ExecutionId, paused: bool, outcome: Outcome, now: int): Table
    requires id < |rows|
  {
    if Dispatchable(rows[id], paused, now)
    then ApplyRetryPolicy(policy, rows[id := AfterRun(rows[id], outcome)], id, now)
    else rows
  }

  function Next(policy: RetryPolicy, s: System, a: Action): System {
    match a
    case Ingest(workflow) =>
      s.(rows := s.rows + [Row(Pending, true, workflow, NO_DISPATCH, false, Ingested)])
    case CreateDirect(workflow) =>
      s.(rows := s.rows + [Row(Pending, false, workflow, NO_DISPATCH, false, Direct)])
    case RunDirect(id, outcome) =>
      if id < |s.rows| && !s.rows[id].webhook && Untouched(s.rows[id])
      then s.(rows := s.rows[id := AfterRun(s.rows[id], outcome)])
      else s
    case Scan(limit) =>
      if s.batch == [] then s.(batch := PendingIds(s.rows, 0, limit)) else s
    case DispatchNext(paused, outcome, now) =>
      if s.batch == [] || s.batch[0] >= |s.rows| then s
      else s.(rows := DispatchOne(policy, s.rows, s.batch[0], paused, outcome, now), batch := s.batch[1..])
    case DropBatch => s.(batch := [])
    case ReadForRetry(q, id) =>
      if q !in s.open.retries && id < |s.rows| && IsDeadLettered(s.rows[id])
      then s.(open := s.open.(retries := s.open.retries[q := Retry(id, Manual)]))
      else s
    case FindForPlan(q) =>
      var source := PlanSource(s.rows);
      if q !in s.open.retries && source.Some?
      then s.(open := s.open.(retries := s.open.retries[q := Retry(source.value, Planned)]))
      else s
    case CreateRetry(q, admitted) =>
      if q in s.open.retries then
        var retry := s.open.retries[q];
        System(if admitted && retry.source < |s.rows|
               then s.rows + [ManualRow(s.rows[retry.source], retry.source, retry.origin)] else s.rows,
               s.batch, s.open.(retries := s.open.retries - {q}))
      else s
    case ReadForCancel(q, id) =>
      if q !in s.open.cancels && id < |s.rows| && s.rows[id].status == Pending
      then s.(open := s.open.(cancels := s.open.cancels[q := id]))
      else s
    case WriteCancel(q) =>
      if q in s.open.cancels then
        var id := s.open.cancels[q];
        System(if id < |s.rows| then s.rows[id := s.rows[id].(status := Cancelled)] else s.rows,
               s.batch, s.open.(cancels := s.open.cancels - {q}))
      else s
  }

  function History(policy: RetryPolicy, s: System, actions: seq<Action>): System {
    if actions == [] then s
    else Next(policy, History(policy, s, actions[..|actions| - 1]), actions[|actions| - 1])
  }

  lemma {:induction false} HistoryConcat(policy: RetryPolicy, s: System, a: seq<Action>, b: seq<Action>)
    ensures History(policy, s, a + b) == History(policy, History(policy, s, a), b)
    decreases |b|
  {
    hide Next;
    if b == [] {
      assert a + b == a;
    } else {
      HistoryConcat(policy, s, a, b[..|b| - 1]);
      assert (a + b)[..|a + b| - 1] == a + b[..|b| - 1];
    }
  }

  lemma HistoryPush(policy: RetryPolicy, s: System, t: seq<Action>, a: Action)
    ensures History(policy, s, t + [a]) == Next(policy, History(policy, s, t), a)
  {
    assert (t + [a])[..|t|] == t;
  }

  // ---------------------------------------------------------------- invariants

  predicate IsAutomaticLine(o: Origin) {
    o == Ingested || o == Automatic
  }

  /** A parent link raises the attempt by one, keeps the root, and says how the child came about. */
  ghost predicate LinkOk(policy: RetryPolicy, rows: Table, i: ExecutionId)
    requires i < |rows|
  {
    var r := rows[i];
    match r.dispatch.parent
    case None =>
      r.origin in {Ingested, Direct} && AttemptNumber(r.dispatch) == 1 && r.dispatch.root == None
    case Some(p) =>
      && p < i
      && r.origin !in {Ingested, Direct}
      && AttemptNumber(r.dispatch) == AttemptNumber(rows[p].dispatch) + 1
      && r.dispatch.root == Some(RootOf(rows, p))
      && Spent(rows[p])
      && (r.origin == Automatic ==>
            && IsAutomaticLine(rows[p].origin) && !rows[p].dispatch.deadLettered
            && AttemptNumber(r.dispatch) <= policy.maxAttempts)
      && (r.origin in {Manual, Planned} ==> rows[p].dispatch.deadLettered)
  }

  /** The row has been run and failed retryably; a late cancellation may have renamed its end since. */
  predicate Spent(row: Row) {
    row.status in {Failed, Cancelled} && row.retryableLog
  }

  ghost predicate RowOk(policy: RetryPolicy, rows: Table, i: ExecutionId)
    requires i < |rows|
  {
    && LinkOk(policy, rows, i)
    && (rows[i].webhook <==> rows[i].origin != Direct)
    && (rows[i].dispatch.deadLettered ==>
          Spent(rows[i]) && rows[i].webhook && AttemptNumber(rows[i].dispatch) >= policy.maxAttempts)
    && (rows[i].dispatch.root.Some? ==> rows[i].dispatch.root.value < i && rows[rows[i].dispatch.root.value].origin == Ingested)
    && (rows[i].status == Pending ==> !rows[i].retryableLog)
  }

  ghost predicate Childless(rows: Table, id: ExecutionId) {
    forall i :: 0 <= i < |rows| ==> rows[i].dispatch.parent != Some(id)
  }

  /** One automatic child at most. */
  ghost predicate ChildrenOk(rows: Table) {
    forall i, j ::
      0 <= i < j < |rows| && rows[i].origin == Automatic && rows[j].origin == Automatic && rows[i].dispatch.parent.Some?
      ==> rows[i].dispatch.parent != rows[j].dispatch.parent
  }

  /** The worker's batch holds distinct rows; its webhook rows nobody has run since they were scanned. */
  ghost predicate BatchOk(rows: Table, batch: seq<ExecutionId>) {
    && (forall i, j :: 0 <= i < j < |batch| ==> batch[i] != batch[j])
    && forall id :: id in batch ==> id < |rows| && (rows[id].webhook ==> Untouched(rows[id]))
  }

  predicate Untouched(row: Row) {
    row.status in {Pending, Cancelled} && !row.retryableLog
  }

  ghost predicate RowsOk(policy: RetryPolicy, rows: Table) {
    forall i :: 0 <= i < |rows| ==> RowOk(policy, rows, i)
  }

  ghost predicate Inv(policy: RetryPolicy, s: System) {
    && RowsOk(policy, s.rows)
    && ChildrenOk(s.rows)
    && BatchOk(s.rows, s.batch)
    && OpenOk(s.rows, s.open)
  }

  /** Requests under way name rows of the table; a retry's source carries its mark for good. */
  ghost predicate OpenOk(rows: Table, open: Open) {
    && (forall q :: q in open.cancels ==> open.cancels[q] < |rows|)
    && forall q :: q in open.retries ==>
         var retry := open.retries[q];
         retry.source < |rows| && rows[retry.source].dispatch.deadLettered && retry.origin in {Manual, Planned}
  }

  /** Only rows with a retryable failure behind them have children. */
  lemma UnspentIsChildless(policy: RetryPolicy, rows: Table, id: ExecutionId)
    requires RowsOk(policy, rows)
    requires id < |rows| && !rows[id].retryableLog
    ensures Childless(rows, id)
  {
    forall i | 0 <= i < |rows|
      ensures rows[i].dispatch.parent != Some(id)
    {
      assert RowOk(policy, rows, i);
    }
  }

  /** A childless row may change its status and its dead-letter mark without disturbing other rows. */
  lemma SettleKeepsRows(policy: RetryPolicy, rows: Table, id: ExecutionId, row: Row)
    requires RowsOk(policy, rows)
    requires id < |rows| && Childless(rows, id)
    requires row.origin == rows[id].origin && row.webhook == rows[id].webhook
    requires AttemptNumber(row.dispatch) == AttemptNumber(rows[id].dispatch)
    requires row.dispatch.parent == rows[id].dispatch.parent && row.dispatch.root == rows[id].dispatch.root
    requires row.dispatch.deadLettered ==>
      Spent(row) && row.webhook && AttemptNumber(row.dispatch) >= policy.maxAttempts
    requires row.status == Pending ==> !row.retryableLog
    ensures RowsOk(policy, rows[id := row])
  {
    var after := rows[id := row];
    forall i | 0 <= i < |rows|
      ensures RowOk(policy, after, i)
    {
      assert RowOk(policy, rows, i);
    }
  }

  lemma SettleKeepsChildren(rows: Table, id: ExecutionId, row: Row)
    requires ChildrenOk(rows) && id < |rows|
    requires row.origin == rows[id].origin && row.dispatch.parent == rows[id].dispatch.parent
    ensures ChildrenOk(rows[id := row])
  {
    var after := rows[id := row];
    assert forall i :: 0 <= i < |rows| ==> after[i].origin == rows[i].origin && after[i].dispatch.parent == rows[i].dispatch.parent;
  }

  /** A new row at the end keeps the earlier rows in order. */
  lemma AppendKeepsRows(policy: RetryPolicy, rows: Table, row: Row)
    requires RowsOk(policy, rows)
    requires RowOk(policy, rows + [row], |rows|)
    ensures RowsOk(policy, rows + [row])
  {
    var after := rows + [row];
    forall i | 0 <= i < |rows|
      ensures RowOk(policy, after, i)
    {
      assert RowOk(policy, rows, i);
    }
  }

  lemma AppendKeepsChildren(rows: Table, row: Row)
    requires ChildrenOk(rows)
    requires row.origin == Automatic && row.dispatch.parent.Some? ==>
      forall i :: 0 <= i < |rows| && rows[i].origin == Automatic ==> rows[i].dispatch.parent != row.dispatch.parent
    ensures ChildrenOk(rows + [row])
  {
  }

  /** Running one batch candidate keeps everything. */
  lemma RunKeeps(policy: RetryPolicy, rows: Table, id: ExecutionId, outcome: Outcome)
    requires RowsOk(policy, rows) && ChildrenOk(rows)
    requires id < |rows| && Untouched(rows[id])
    ensures
      var after := rows[id := AfterRun(rows[id], outcome)];
      && RowsOk(policy, after) && ChildrenOk(after) && Childless(after, id)
      && (after[id].status == Pending ==> !after[id].retryableLog) && !after[id].dispatch.deadLettered
  {
    assert RowOk(policy, rows, id);
    UnspentIsChildless(policy, rows, id);
    SettleKeepsRows(policy, rows, id, AfterRun(rows[id], outcome));
    SettleKeepsChildren(rows, id, AfterRun(rows[id], outcome));
    assert forall i :: 0 <= i < |rows| ==>
      rows[id := AfterRun(rows[id], outcome)][i].dispatch == rows[i].dispatch;
  }

  lemma DeadLetterKeeps(policy: RetryPolicy, rows: Table, id: ExecutionId)
    requires RowsOk(policy, rows) && ChildrenOk(rows) && Childless(rows, id)
    requires id < |rows| && rows[id].webhook && Spent(rows[id])
    requires AttemptNumber(rows[id].dispatch) >= policy.maxAttempts
    ensures RowsOk(policy, rows[id := DeadLetter(rows[id])]) && ChildrenOk(rows[id := DeadLetter(rows[id])])
  {
    SettleKeepsRows(policy, rows, id, DeadLetter(rows[id]));
    SettleKeepsChildren(rows, id, DeadLetter(rows[id]));
  }

  lemma RootIsIngested(policy: RetryPolicy, rows: Table, id: ExecutionId)
    requires RowsOk(policy, rows) && id < |rows| && rows[id].webhook
    ensures RootOf(rows, id) <= id && rows[RootOf(rows, id)].origin == Ingested
  {
    assert RowOk(policy, rows, id);
  }

  lemma RetryKeeps(policy: RetryPolicy, rows: Table, id: ExecutionId, at: int)
    requires RowsOk(policy, rows) && ChildrenOk(rows) && Childless(rows, id)
    requires id < |rows| && rows[id].webhook && Spent(rows[id]) && !rows[id].dispatch.deadLettered
    requires AttemptNumber(rows[id].dispatch) < policy.maxAttempts
    ensures RowsOk(policy, rows + [RetryRow(rows[id], id, at)]) && ChildrenOk(rows + [RetryRow(rows[id], id, at)])
  {
    var row := RetryRow(rows[id], id, at);
    assert RowOk(policy, rows, id);
    RootIsIngested(policy, rows, id);
    AutomaticLineBelowMax(policy, rows, id);
    assert RowOk(policy, rows + [row], |rows|);
    AppendKeepsRows(policy, rows, row);
    AppendKeepsChildren(rows, row);
  }

  /** Manual and planned rows are past the maximum, so a row still below it is on an automatic line. */
  lemma AutomaticLineBelowMax(policy: RetryPolicy, rows: Table, id: ExecutionId)
    requires RowsOk(policy, rows) && id < |rows| && rows[id].webhook
    ensures AttemptNumber(rows[id].dispatch) <= policy.maxAttempts ==> IsAutomaticLine(rows[id].origin)
  {
    assert RowOk(policy, rows, id);
    if rows[id].dispatch.parent.Some? {
      assert RowOk(policy, rows, rows[id].dispatch.parent.value);
    }
  }

  lemma ManualKeeps(policy: RetryPolicy, rows: Table, id: ExecutionId, origin: Origin)
    requires RowsOk(policy, rows) && ChildrenOk(rows)
    requires id < |rows| && rows[id].dispatch.deadLettered && origin in {Manual, Planned}
    ensures RowsOk(policy, rows + [ManualRow(rows[id], id, origin)]) && ChildrenOk(rows + [ManualRow(rows[id], id, origin)])
  {
    var row := ManualRow(rows[id], id, origin);
    assert RowOk(policy, rows, id);
    RootIsIngested(policy, rows, id);
    assert RowOk(policy, rows + [row], |rows|);
    AppendKeepsRows(policy, rows, row);
    AppendKeepsChildren(rows, row);
  }

  /** A new execution, ingested or direct, has neither parent nor children. */
  lemma IngestKeeps(policy: RetryPolicy, rows: Table, webhook: bool, workflow: nat)
    requires RowsOk(policy, rows) && ChildrenOk(rows)
    ensures
      var after := rows + [Row(Pending, webhook, workflow, NO_DISPATCH, false, if webhook then Ingested else Direct)];
      RowsOk(policy, after) && ChildrenOk(after)
  {
    var row := Row(Pending, webhook, workflow, NO_DISPATCH, false, if webhook then Ingested else Direct);
    assert RowOk(policy, rows + [row], |rows|);
    AppendKeepsRows(policy, rows, row);
    AppendKeepsChildren(rows, row);
  }

  /** Excluding what the scanned window shows as retried excludes exactly what was ever retried:
      children are created after their parents, so they lie in the window when their parents do. */
  lemma WindowSeesEveryRetry(policy: RetryPolicy, rows: Table, id: ExecutionId)
    requires RowsOk(policy, rows) && WindowStart(rows) <= id < |rows|
    ensures id in RetriedSourceIds(rows, WindowStart(rows)) <==> id in RetriedSourceIds(rows, 0)
    ensures id !in RetriedSourceIds(rows, 0) <==> Childless(rows, id)
  {
    forall i | 0 <= i < |rows| && rows[i].dispatch.parent == Some(id)
      ensures i >= WindowStart(rows)
    {
      assert RowOk(policy, rows, i);
    }
  }

  lemma DispatchKeeps(policy: RetryPolicy, rows: Table, id: ExecutionId, paused: bool, outcome: Outcome, now: int)
    requires RowsOk(policy, rows) && ChildrenOk(rows)
    requires id < |rows| && (rows[id].webhook ==> Untouched(rows[id]))
    ensures
      var after := DispatchOne(policy, rows, id, paused, outcome, now);
      && RowsOk(policy, after) && ChildrenOk(after)
      && |after| >= |rows|
      && (forall k :: 0 <= k < |rows| && k != id ==> after[k] == rows[k])
      && (rows[id].dispatch.deadLettered ==> after[id].dispatch.deadLettered)
  {
    hide RowsOk, ChildrenOk, Childless, AttemptNumber;
    if !Dispatchable(rows[id], paused, now) {
      return;
    }
    var ran := rows[id := AfterRun(rows[id], outcome)];
    RunKeeps(policy, rows, id, outcome);
    if ran[id].status == Failed && ran[id].retryableLog {
      if AttemptNumber(ran[id].dispatch) >= policy.maxAttempts {
        DeadLetterKeeps(policy, ran, id);
      } else {
        RetryKeeps(policy, ran, id, now + policy.backoffSeconds);
      }
    }
  }

  /** Every action keeps the invariant. */
  lemma NextKeepsInv(policy: RetryPolicy, s: System, a: Action)
    requires Inv(policy, s)
    ensures Inv(policy, Next(policy, s, a))
  {
    hide RowsOk, ChildrenOk, RetriedSourceIds, Childless, ManualRow;
    match a
    case Ingest(workflow) =>
      IngestKeeps(policy, s.rows, true, workflow);
    case CreateDirect(workflow) =>
      IngestKeeps(policy, s.rows, false, workflow);
    case RunDirect(id, outcome) =>
      if id < |s.rows| && Untouched(s.rows[id]) {
        RunKeeps(policy, s.rows, id, outcome);
      }
    case Scan(limit) =>
      ScanIsOk(policy, s.rows, limit);
    case DispatchNext(paused, outcome, now) =>
      DispatchNextKeeps(policy, s, paused, outcome, now);
    case CreateRetry(q, _) =>
      if q in s.open.retries {
        ManualKeeps(policy, s.rows, s.open.retries[q].source, s.open.retries[q].origin);
      }
    case WriteCancel(q) =>
      if q in s.open.cancels {
        CancelKeeps(policy, s.rows, s.open.cancels[q]);
      }
    case _ =>
      RequestsReadOnly(policy, s, a);
  }

  lemma RequestsReadOnly(policy: RetryPolicy, s: System, a: Action)
    requires Inv(policy, s) && (a.ReadForRetry? || a.FindForPlan? || a.ReadForCancel? || a.DropBatch?)
    ensures Inv(policy, Next(policy, s, a))
  {
    hide RowsOk, ChildrenOk, RetriedSourceIds;
  }

  lemma DispatchNextKeeps(policy: RetryPolicy, s: System, paused: bool, outcome: Outcome, now: int)
    requires Inv(policy, s)
    ensures Inv(policy, Next(policy, s, DispatchNext(paused, outcome, now)))
  {
    hide RowsOk, ChildrenOk;
    if s.batch != [] {
      assert s.batch[0] in s.batch;
      DispatchKeeps(policy, s.rows, s.batch[0], paused, outcome, now);
      hide DispatchOne;
      assert forall id :: id in s.batch[1..] ==> id in s.batch && id != s.batch[0];
    }
  }

  lemma ScanIsOk(policy: RetryPolicy, rows: Table, limit: nat)
    requires RowsOk(policy, rows)
    ensures BatchOk(rows, PendingIds(rows, 0, limit))
  {
    OldestPending(rows, 0, limit);
    forall id | id in PendingIds(rows, 0, limit)
      ensures Untouched(rows[id])
    {
      PendingIsUntouched(policy, rows, id);
    }
    hide PendingIds;
  }

  lemma PendingIsUntouched(policy: RetryPolicy, rows: Table, id: ExecutionId)
    requires RowsOk(policy, rows) && id < |rows| && rows[id].status == Pending
    ensures Untouched(rows[id])
  {
    assert RowOk(policy, rows, id);
  }

  /** A cancellation, however late, changes one status and nothing that the lineage rests on. */
  lemma CancelKeeps(policy: RetryPolicy, rows: Table, id: ExecutionId)
    requires RowsOk(policy, rows) && ChildrenOk(rows) && id < |rows|
    ensures
      var after := rows[id := rows[id].(status := Cancelled)];
      RowsOk(policy, after) && ChildrenOk(after)
  {
    var after := rows[id := rows[id].(status := Cancelled)];
    forall i | 0 <= i < |rows|
      ensures RowOk(policy, after, i)
    {
      assert RowOk(policy, rows, i);
    }
    SettleKeepsChildren(rows, id, rows[id].(status := Cancelled));
  }

  const EMPTY := System([], [], NO_REQUESTS)

  /** Over every history from the empty table the invariant holds. */
  lemma {:induction false} HistoriesKeepInv(policy: RetryPolicy, actions: seq<Action>)
    ensures Inv(policy, History(policy, EMPTY, actions))
    decreases |actions|
  {
    if actions != [] {
      HistoriesKeepInv(policy, actions[..|actions| - 1]);
      NextKeepsInv(policy, History(policy, EMPTY, actions[..|actions| - 1]), actions[|actions| - 1]);
    }
  }

  /** The rows that one ingested event gave rise to without anyone asking. */
  ghost function AutomaticFamily(rows: Table, root: ExecutionId): set<ExecutionId> {
    set i | 0 <= i < |rows| && IsAutomaticLine(rows[i].origin) && RootOf(rows, i) == root
  }

  /** Within one family an attempt number names one row. */
  lemma {:induction false} AttemptNamesRow(policy: RetryPolicy, rows: Table, root: ExecutionId, i: ExecutionId, j: ExecutionId)
    requires RowsOk(policy, rows) && ChildrenOk(rows)
    requires i in AutomaticFamily(rows, root) && j in AutomaticFamily(rows, root)
    requires AttemptNumber(rows[i].dispatch) == AttemptNumber(rows[j].dispatch)
    ensures i == j
    decreases i
  {
    assert RowOk(policy, rows, i) && RowOk(policy, rows, j);
    if rows[i].dispatch.parent.Some? {
      ParentInFamily(policy, rows, root, i);
      assert rows[j].dispatch.parent.Some?;
      ParentInFamily(policy, rows, root, j);
      AttemptNamesRow(policy, rows, root, rows[i].dispatch.parent.value, rows[j].dispatch.parent.value);
    }
  }

  lemma ParentInFamily(policy: RetryPolicy, rows: Table, root: ExecutionId, i: ExecutionId)
    requires RowsOk(policy, rows)
    requires i in AutomaticFamily(rows, root) && rows[i].dispatch.parent.Some?
    ensures rows[i].dispatch.parent.value < i && rows[i].dispatch.parent.value in AutomaticFamily(rows, root)
    ensures AttemptNumber(rows[i].dispatch) == AttemptNumber(rows[rows[i].dispatch.parent.value].dispatch) + 1
    ensures AttemptNumber(rows[i].dispatch) > 1
  {
    assert RowOk(policy, rows, i);
  }

  lemma {:induction false} BoundedInjection(s: set<ExecutionId>, rows: Table, bound: nat)
    requires forall i :: i in s ==> i < |rows| && 1 <= AttemptNumber(rows[i].dispatch) <= bound
    requires forall i, j :: i in s && j in s && AttemptNumber(rows[i].dispatch) == AttemptNumber(rows[j].dispatch) ==> i == j
    ensures |s| <= bound
    decreases bound
  {
    if x :| x in s && AttemptNumber(rows[x].dispatch) == bound {
      BoundedInjection(s - {x}, rows, bound - 1);
    } else if bound > 0 {
      BoundedInjection(s, rows, bound - 1);
    } else if y :| y in s {
      assert false;
    }
  }

  /** One ingested event yields at most max(1, maxAttempts) executions by itself, over every history. */
  lemma AutomaticFamilyIsBounded(policy: RetryPolicy, actions: seq<Action>, root: ExecutionId)
    ensures |AutomaticFamily(History(policy, EMPTY, actions).rows, root)|
         <= if policy.maxAttempts < 1 then 1 else policy.maxAttempts
  {
    HistoriesKeepInv(policy, actions);
    var rows := History(policy, EMPTY, actions).rows;
    var family := AutomaticFamily(rows, root);
    forall i | i in family
      ensures 1 <= AttemptNumber(rows[i].dispatch) <= if policy.maxAttempts < 1 then 1 else policy.maxAttempts
    {
      assert RowOk(policy, rows, i);
    }
    forall i, j | i in family && j in family && AttemptNumber(rows[i].dispatch) == AttemptNumber(rows[j].dispatch)
      ensures i == j
    {
      AttemptNamesRow(policy, rows, root, i, j);
    }
    BoundedInjection(family, rows, if policy.maxAttempts < 1 then 1 else policy.maxAttempts);
  }

  /** `above` is an ancestor of `id` along parent links. */
  ghost predicate Above(rows: Table, above: ExecutionId, id: ExecutionId)
    decreases id
  {
    id < |rows| && rows[id].dispatch.parent.Some? && rows[id].dispatch.parent.value < id
    && (rows[id].dispatch.parent.value == above || Above(rows, above, rows[id].dispatch.parent.value))
  }

  /** Nothing below a manual or planned retry is ever retried automatically. */
  lemma {:induction false} NothingAutomaticBelowManual(policy: RetryPolicy, rows: Table, above: ExecutionId, id: ExecutionId)
    requires RowsOk(policy, rows)
    requires Above(rows, above, id) && rows[id].origin == Automatic
    ensures above < |rows| && IsAutomaticLine(rows[above].origin)
    decreases id
  {
    assert RowOk(policy, rows, id);
    var p := rows[id].dispatch.parent.value;
    if p != above {
      assert RowOk(policy, rows, p);
      assert rows[p].origin == Automatic;
      NothingAutomaticBelowManual(policy, rows, above, p);
    }
  }

  /** What a plan retries, over every history: a dead letter nobody has retried, and the oldest such in the window. */
  lemma PlanRetriesOldestUntouched(policy: RetryPolicy, actions: seq<Action>)
    ensures
      var rows := History(policy, EMPTY, actions).rows;
      match PlanSource(rows)
      case Some(id) =>
        && WindowStart(rows) <= id < |rows| && IsDeadLettered(rows[id]) && Childless(rows, id)
        && forall j :: WindowStart(rows) <= j < id && IsDeadLettered(rows[j]) ==> !Childless(rows, j)
      case None =>
        forall j :: WindowStart(rows) <= j < |rows| && IsDeadLettered(rows[j]) ==> !Childless(rows, j)
  {
    HistoriesKeepInv(policy, actions);
    var rows := History(policy, EMPTY, actions).rows;
    forall j | WindowStart(rows) <= j < |rows|
      ensures j in RetriedSourceIds(rows, WindowStart(rows)) <==> !Childless(rows, j)
    {
      WindowSeesEveryRetry(policy, rows, j);
    }
  }

  // ---------------------------------------------------------------- by their fields

  /** A retry is begun exactly for a failed, dead-lettered webhook execution; a request asks for it once. */
  lemma DeadLettersAreRetried(policy: RetryPolicy, s: System, q: RequestId, id: ExecutionId)
    requires q !in s.open.retries
    ensures q in Next(policy, s, ReadForRetry(q, id)).open.retries <==>
      id < |s.rows| && s.rows[id].status == Failed && s.rows[id].webhook && s.rows[id].dispatch.deadLettered
  {
  }

  /** What a manual or planned retry creates: the same work once more, due at once, one attempt on. */
  lemma RetryCarriesWork(policy: RetryPolicy, s: System, q: RequestId)
    requires q in s.open.retries && s.open.retries[q].source < |s.rows|
    ensures
      var id, rows := s.open.retries[q].source, Next(policy, s, CreateRetry(q, true)).rows;
      && |rows| == |s.rows| + 1 && rows[..|s.rows|] == s.rows
      && var retry, source := rows[|s.rows|], s.rows[id];
      && retry.status == Pending && retry.workflow == source.workflow && retry.webhook == source.webhook
      && retry.dispatch.parent == Some(id) && RootOf(rows, |s.rows|) == RootOf(s.rows, id)
      && AttemptNumber(retry.dispatch) == AttemptNumber(source.dispatch) + 1
      && retry.dispatch.nextAttemptAt == None && !retry.dispatch.deadLettered && retry.dispatch.manualRetry
  {
    hide PlanSource;
  }

  /** A retry that is not admitted leaves the executions as they were, and its request is over either way. */
  lemma RefusedRetryChangesNothing(policy: RetryPolicy, s: System, q: RequestId, admitted: bool)
    requires q in s.open.retries
    ensures
      var t := Next(policy, s, CreateRetry(q, admitted));
      && q !in t.open.retries && t.open.cancels == s.open.cancels && t.batch == s.batch
      && (!admitted ==> t.rows == s.rows)
      && (forall o :: o in s.open.retries && o != q ==> o in t.open.retries && t.open.retries[o] == s.open.retries[o])
  {
    hide PlanSource, ManualRow;
  }

  /** Missing and malformed attempts count as one. */
  lemma AttemptsCountFromOne(d: Dispatch)
    ensures d.attempt == None || d.attempt.value < 1 ==> AttemptNumber(d) == 1
    ensures d.attempt.Some? && d.attempt.value >= 1 ==> AttemptNumber(d) == d.attempt.value
  {
  }

  /** A plan looks at the newest thousand rows. */
  lemma WindowIsNewest(rows: Table)
    ensures WindowStart(rows) <= |rows|
    ensures |rows| - WindowStart(rows) == if |rows| < 1000 then |rows| else 1000
  {
  }
}
