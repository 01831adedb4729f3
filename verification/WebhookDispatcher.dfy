/** The dispatcher service: one batch over the execution table while other requests keep changing it. */
module WebhookDispatcher {
  import opened Common
  import opened WebhookLineage

  const PENDING_SCAN_LIMIT := 100

  datatype Report = Report(scanned: nat, dispatched: nat, skipped: nat, deferred: nat, paused: nat,
                           retriesScheduled: nat, deadLettered: nat, executionIds: seq<ExecutionId>)

  datatype RetryResult = NoRetry | RetryScheduled | DeadLettered

  /** What happens around one candidate: requests served before it, whether its workflow is paused, how it runs. */
  datatype Turn = Turn(others: seq<Action>, paused: bool, outcome: Outcome)

  /** Everything but the dispatcher's own actions. */
  predicate IsForeign(a: Action) {
    !a.Scan? && !a.DispatchNext? && !a.DropBatch?
  }

  ghost predicate OnlyForeign(turns: nat -> Turn) {
    forall n, a :: a in turns(n).others ==> IsForeign(a)
  }

  /** The program's own counters: every scanned candidate has exactly one fate. */
  ghost predicate Counted(report: Report, limit: nat) {
    && report.scanned == report.skipped + report.paused + report.deferred + report.dispatched
    && report.dispatched == |report.executionIds| <= limit
    && report.retriesScheduled + report.deadLettered <= report.dispatched
  }

  /** The rows of one table live on in another with the dispatch data they had. */
  ghost predicate SameDispatch(rows: Table, after: Table) {
    && |rows| <= |after|
    && forall i :: 0 <= i < |rows| ==> after[i].dispatch == rows[i].dispatch && after[i].webhook == rows[i].webhook
  }

  lemma ForeignStep(policy: RetryPolicy, s: System, a: Action)
    requires IsForeign(a)
    ensures Next(policy, s, a).batch == s.batch && SameDispatch(s.rows, Next(policy, s, a).rows)
  {
    hide PlanSource, ManualRow;
  }

  lemma {:induction false} ForeignKeepsBatch(policy: RetryPolicy, s: System, others: seq<Action>)
    requires Inv(policy, s) && forall a :: a in others ==> IsForeign(a)
    ensures
      var after := History(policy, s, others);
      Inv(policy, after) && after.batch == s.batch && SameDispatch(s.rows, after.rows)
    decreases |others|
  {
    if others != [] {
      var init, a := others[..|others| - 1], others[|others| - 1];
      ForeignKeepsBatch(policy, s, init);
      assert a in others;
      hide Inv, Next;
      NextKeepsInv(policy, History(policy, s, init), a);
      ForeignStep(policy, History(policy, s, init), a);
    }
  }

  /** The candidates of a batch keep what the dispatcher reads of them, whoever else writes. */
  ghost predicate Unread(rows0: Table, rows: Table, batch: seq<ExecutionId>) {
    && |rows0| <= |rows|
    && forall id :: id in batch ==>
         && id < |rows0| && rows0[id].status == Pending
         && rows[id].dispatch == rows0[id].dispatch && rows[id].webhook == rows0[id].webhook
  }

  /** The ids dispatched so far were pending webhook rows whose retry time had come, and are no longer in the batch. */
  ghost predicate WereDue(rows0: Table, ids: seq<ExecutionId>, batch: seq<ExecutionId>, now: int) {
    && (forall i, j :: 0 <= i < j < |ids| ==> ids[i] != ids[j])
    && forall id :: id in ids ==>
         && id < |rows0| && rows0[id].status == Pending && rows0[id].webhook && IsRetryDue(rows0[id].dispatch, now)
         && id !in batch
  }

  /** The table as the worker meets it, and the requests other parts of the program have under way. */
  class ExecutionTable {
    var rows: Table
    var open: Open

    /** The oldest pending rows, up to the scan limit. */
    method PendingExecutionCandidates(scanLimit: nat) returns (ids: seq<ExecutionId>)
      ensures ids == PendingIds(rows, 0, scanLimit)
    {
      ids := [];
      var i := 0;
      while i < |rows| && |ids| < scanLimit
        invariant i <= |rows| && |ids| <= scanLimit
        invariant PendingIds(rows, 0, scanLimit) == ids + PendingIds(rows, i, scanLimit - |ids|)
      {
        if rows[i].status == Pending {
          assert ids + [i] + PendingIds(rows, i + 1, scanLimit - |ids| - 1)
              == ids + ([i] + PendingIds(rows, i + 1, scanLimit - |ids| - 1));
          ids := ids + [i];
        }
        i := i + 1;
      }
    }

    method MarkDeadLettered(id: ExecutionId)
      requires id < |rows|
      modifies this`rows
      ensures rows == old(rows)[id := DeadLetter(old(rows)[id])]
      ensures rows[id].dispatch.deadLettered && AttemptNumber(rows[id].dispatch) == AttemptNumber(old(rows)[id].dispatch)
      ensures rows[id] == old(rows)[id].(dispatch :=
        old(rows)[id].dispatch.(attempt := rows[id].dispatch.attempt, deadLettered := true))
    {
      var metadata := rows[id].dispatch;
      metadata := metadata.(attempt := Some(AttemptNumber(metadata)), deadLettered := true);
      rows := rows[id := rows[id].(dispatch := metadata)];
    }

    method ScheduleRetryExecution(policy: RetryPolicy, id: ExecutionId, now: int)
      requires id < |rows|
      modifies this`rows
      ensures rows == old(rows) + [RetryRow(old(rows)[id], id, now + policy.backoffSeconds)]
      ensures
        var retry := rows[|old(rows)|];
        && retry.status == Pending && retry.dispatch.parent == Some(id) && RootOf(rows, |old(rows)|) == RootOf(old(rows), id)
        && AttemptNumber(retry.dispatch) == AttemptNumber(old(rows)[id].dispatch) + 1
        && retry.dispatch.nextAttemptAt == Some(now + policy.backoffSeconds) && !retry.dispatch.deadLettered
        && retry.workflow == old(rows)[id].workflow && retry.webhook == old(rows)[id].webhook
    {
      rows := rows + [RetryRow(rows[id], id, now + policy.backoffSeconds)];
    }

    method ApplyRetryPolicyAfterDispatch(policy: RetryPolicy, id: ExecutionId, now: int) returns (result: RetryResult)
      requires id < |rows|
      modifies this`rows
      ensures rows == ApplyRetryPolicy(policy, old(rows), id, now)
      ensures result == RetryScheduled <==> |rows| == |old(rows)| + 1
      ensures result == DeadLettered <==>
        old(rows)[id].status == Failed && old(rows)[id].retryableLog
        && AttemptNumber(old(rows)[id].dispatch) >= policy.maxAttempts
      ensures result == RetryScheduled <==>
        old(rows)[id].status == Failed && old(rows)[id].retryableLog
        && AttemptNumber(old(rows)[id].dispatch) < policy.maxAttempts
      ensures result == NoRetry ==> rows == old(rows)
    {
      if rows[id].status != Failed {
        return NoRetry;
      }
      if !rows[id].retryableLog {
        return NoRetry;
      }
      if AttemptNumber(rows[id].dispatch) >= policy.maxAttempts {
        MarkDeadLettered(id);
        return DeadLettered;
      }
      ScheduleRetryExecution(policy, id, now);
      result := RetryScheduled;
    }

    /** One candidate: passed over for one reason, or run and put through the retry policy. */
    method DispatchCandidate(policy: RetryPolicy, id: ExecutionId, paused: bool, outcome: Outcome, now: int, report0: Report)
      returns (report: Report)
      requires id < |rows|
      modifies this`rows
      ensures rows == DispatchOne(policy, old(rows), id, paused, outcome, now)
      ensures OneFate(report0, report, id, Dispatchable(old(rows)[id], paused, now))
      ensures OneMore(old(rows)[id], id, paused, now, report0, report)
      ensures !old(rows)[id].webhook ==>
        rows == old(rows) && report == report0.(scanned := report0.scanned + 1, skipped := report0.skipped + 1)
      ensures old(rows)[id].webhook && paused ==>
        rows == old(rows) && report == report0.(scanned := report0.scanned + 1, paused := report0.paused + 1)
      ensures old(rows)[id].webhook && !paused && ComesLater(old(rows)[id].dispatch.nextAttemptAt, now) ==>
        rows == old(rows) && report == report0.(scanned := report0.scanned + 1, deferred := report0.deferred + 1)
      ensures old(rows)[id].webhook && !paused && !ComesLater(old(rows)[id].dispatch.nextAttemptAt, now) ==>
        var row, ran := old(rows)[id], old(rows)[id].status == Pending;
        var failed := if ran then outcome == Outcome(Failed, true)
                      else (row.status == Failed || outcome.status == Failed) && row.retryableLog;
        && rows[id].status == (if ran then outcome.status else if outcome.status == Failed then Failed else row.status)
        && |rows| == |old(rows)| + (if failed && AttemptNumber(row.dispatch) < policy.maxAttempts then 1 else 0)
        && report == report0.(scanned := report0.scanned + 1, dispatched := report0.dispatched + 1,
             executionIds := report0.executionIds + [id],
             retriesScheduled := report0.retriesScheduled
               + if failed && AttemptNumber(row.dispatch) < policy.maxAttempts then 1 else 0,
             deadLettered := report0.deadLettered
               + if failed && AttemptNumber(row.dispatch) >= policy.maxAttempts then 1 else 0)
        && (rows[id].dispatch.deadLettered <==>
              row.dispatch.deadLettered || (failed && AttemptNumber(row.dispatch) >= policy.maxAttempts))
        && rows[id].workflow == row.workflow && rows[id].webhook && rows[id].retryableLog == (if ran then
             outcome.retryable && outcome.status != Pending else row.retryableLog)
        && forall k :: 0 <= k < |old(rows)| && k != id ==> rows[k] == old(rows)[k]
    {
      report := report0.(scanned := report0.scanned + 1);
      if !rows[id].webhook {
        return report.(skipped := report.skipped + 1);
      }
      if paused {
        return report.(paused := report.paused + 1);
      }
      if !IsRetryDue(rows[id].dispatch, now) {
        return report.(deferred := report.deferred + 1);
      }
      rows := rows[id := AfterRun(rows[id], outcome)];
      report := report.(dispatched := report.dispatched + 1, executionIds := report.executionIds + [id]);
      var retryResult := ApplyRetryPolicyAfterDispatch(policy, id, now);
      if retryResult == RetryScheduled {
        report := report.(retriesScheduled := report.retriesScheduled + 1);
      } else if retryResult == DeadLettered {
        report := report.(deadLettered := report.deadLettered + 1);
      }
    }

    /** The candidate at position i, after whatever other requests did before it was met. */
    method ServeCandidate(policy: RetryPolicy, limit: nat, now: int, turns: nat -> Turn, candidates: seq<ExecutionId>, i: nat,
                          report0: Report, ghost start: System, ghost trace0: seq<Action>)
      returns (report: Report, ghost trace: seq<Action>)
      requires i < |candidates| && report0.scanned == i && report0.dispatched < limit && OnlyForeign(turns)
      requires Ascending(candidates)
      requires Going(policy, start, System(rows, candidates[i..], open), trace0, report0, limit, now)
      requires Fates(start.rows, candidates, turns, now, i, report0)
      modifies this
      ensures report.scanned == i + 1
      ensures Going(policy, start, System(rows, candidates[i + 1..], open), trace, report, limit, now)
      ensures Fates(start.rows, candidates, turns, now, i + 1, report)
    {
      hide *;
      var id, turn := candidates[i], turns(i);
      ghost var batch := candidates[i..];
      assert batch[0] == id && batch[1..] == candidates[i + 1..];
      BatchInterfered(policy, start, System(rows, batch, open), trace0, report0, limit, now, turns, i);
      var interfered := History(policy, System(rows, candidates[i..], open), turn.others);
      rows, open := interfered.rows, interfered.open;
      trace := trace0 + turn.others;
      ghost var met := rows;
      SeenUnchanged(policy, start, System(met, batch, open), trace, report0, limit, now);
      report := DispatchCandidate(policy, id, turn.paused, turn.outcome, now, report0);
      BatchStepped(policy, start, System(met, batch, open), trace, report0, report, limit, turn.paused, turn.outcome, now);
      trace := trace + [DispatchNext(turn.paused, turn.outcome, now)];
      OneMoreFate(start.rows, met[id], candidates, turns, now, i, report0, report);
    }

    /** One batch. `trace` is the run of the state machine that the batch and its surroundings amount to. */
    method DispatchPending(policy: RetryPolicy, limit: int, now: int, turns: nat -> Turn)
      returns (report: Report, ghost trace: seq<Action>)
      requires Inv(policy, System(rows, [], open)) && OnlyForeign(turns)
      modifies this
      ensures System(rows, [], open) == History(policy, System(old(rows), [], old(open)), trace)
      ensures Inv(policy, System(rows, [], open))
      ensures Counted(report, if limit <= 0 then 0 else limit)
      ensures WereDue(old(rows), report.executionIds, [], now)
      ensures Served(old(rows), limit, turns, now, report)
    {
      hide *;
      ghost var start := System(rows, [], open);
      if limit <= 0 {
        report, trace := Report(0, 0, 0, 0, 0, 0, 0, []), [];
        NothingDone(policy, start, now);
        NoneServed(start.rows, limit, turns, now);
        return;
      }
      var candidates := PendingExecutionCandidates(ScanLimit(limit));
      BatchScanned(policy, start, ScanLimit(limit), limit, now);
      OldestPending(start.rows, 0, ScanLimit(limit));
      report, trace := ServeAll(policy, limit, now, turns, candidates, start, [Scan(ScanLimit(limit))]);
      AllServed(start.rows, limit, turns, now, report);
    }

    /** The candidates one after another, until as many as the limit have been dispatched; the rest is let go. */
    method ServeAll(policy: RetryPolicy, limit: nat, now: int, turns: nat -> Turn, candidates: seq<ExecutionId>,
                    ghost start: System, ghost trace0: seq<Action>)
      returns (report: Report, ghost trace: seq<Action>)
      requires limit > 0 && OnlyForeign(turns) && Ascending(candidates)
      requires Going(policy, start, System(rows, candidates, open), trace0, Report(0, 0, 0, 0, 0, 0, 0, []), limit, now)
      modifies this
      ensures System(rows, [], open) == History(policy, start, trace) && Inv(policy, System(rows, [], open))
      ensures Counted(report, limit) && WereDue(start.rows, report.executionIds, [], now)
      ensures report.scanned <= |candidates| && Fates(start.rows, candidates, turns, now, report.scanned, report)
      ensures report.dispatched < limit ==> report.scanned == |candidates|
    {
      hide *;
      report, trace := Report(0, 0, 0, 0, 0, 0, 0, []), trace0;
      NoFates(start.rows, candidates, turns, now);
      assert candidates[0..] == candidates;
      var i := 0;
      while i < |candidates| && report.dispatched < limit
        invariant i <= |candidates| && report.scanned == i
        invariant Fates(start.rows, candidates, turns, now, i, report)
        invariant Going(policy, start, System(rows, candidates[i..], open), trace, report, limit, now)
        decreases |candidates| - i
      {
        report, trace := ServeCandidate(policy, limit, now, turns, candidates, i, report, start, trace);
        i := i + 1;
      }
      BatchEnded(policy, start, System(rows, candidates[i..], open), trace, report, limit, now);
      trace := trace + [DropBatch];
    }
  }

  function ScanLimit(limit: int): nat {
    if PENDING_SCAN_LIMIT < limit then limit else PENDING_SCAN_LIMIT
  }

  /** The time set for the next attempt lies ahead. */
  predicate ComesLater(at: Option<int>, now: int) {
    at.Some? && at.value > now
  }

  /** The positions of the candidates, among the first n, that are no webhook executions. */
  ghost function Skips(rows0: Table, c: seq<ExecutionId>, n: nat): set<nat> {
    set k | 0 <= k < n && k < |c| && c[k] < |rows0| && !rows0[c[k]].webhook
  }

  /** Those whose workflow was paused when they were met. */
  ghost function Pauses(rows0: Table, c: seq<ExecutionId>, turns: nat -> Turn, n: nat): set<nat> {
    set k | 0 <= k < n && k < |c| && c[k] < |rows0| && rows0[c[k]].webhook && turns(k).paused
  }

  /** Those, of workflows not paused, whose next attempt was set for later. */
  ghost function Defers(rows0: Table, c: seq<ExecutionId>, turns: nat -> Turn, now: int, n: nat): set<nat> {
    set k | 0 <= k < n && k < |c| && c[k] < |rows0| && rows0[c[k]].webhook && !turns(k).paused
            && ComesLater(rows0[c[k]].dispatch.nextAttemptAt, now)
  }

  /** The fates of the first n candidates: each of those is counted and left alone, and exactly the others are dispatched. */
  ghost predicate Fates(rows0: Table, c: seq<ExecutionId>, turns: nat -> Turn, now: int, n: nat, report: Report) {
    && report.skipped == |Skips(rows0, c, n)|
    && report.paused == |Pauses(rows0, c, turns, n)|
    && report.deferred == |Defers(rows0, c, turns, now, n)|
    && Dispatched(rows0, c, turns, now, n, report.executionIds)
  }

  ghost predicate Dispatched(rows0: Table, c: seq<ExecutionId>, turns: nat -> Turn, now: int, n: nat, ids: seq<ExecutionId>) {
    && (forall id :: id in ids ==> exists k :: 0 <= k < n && k < |c| && c[k] == id)
    && forall k :: 0 <= k < n && k < |c| && c[k] < |rows0| ==>
         (c[k] in ids <==>
            rows0[c[k]].webhook && !turns(k).paused && !ComesLater(rows0[c[k]].dispatch.nextAttemptAt, now))
  }

  /** A whole batch: it meets the oldest pending rows, at least a hundred if there are as many, one by one until the
      limit is dispatched, and each meets its fate. */
  ghost predicate Served(rows0: Table, limit: int, turns: nat -> Turn, now: int, report: Report) {
    if limit <= 0 then report.scanned == 0
    else
      var candidates := PendingIds(rows0, 0, if limit > 100 then limit else 100);
      && report.scanned <= |candidates|
      && Fates(rows0, candidates, turns, now, report.scanned, report)
      && (report.dispatched < limit ==> report.scanned == |candidates|)
  }

  lemma NoneServed(rows0: Table, limit: int, turns: nat -> Turn, now: int)
    requires limit <= 0
    ensures Served(rows0, limit, turns, now, Report(0, 0, 0, 0, 0, 0, 0, []))
  {
  }

  lemma AllServed(rows0: Table, limit: int, turns: nat -> Turn, now: int, report: Report)
    requires limit > 0
    requires
      var candidates := PendingIds(rows0, 0, ScanLimit(limit));
      && report.scanned <= |candidates| && Fates(rows0, candidates, turns, now, report.scanned, report)
      && (report.dispatched < limit ==> report.scanned == |candidates|)
    ensures Served(rows0, limit, turns, now, report)
  {
    hide Fates, PendingIds;
  }

  lemma NoFates(rows0: Table, c: seq<ExecutionId>, turns: nat -> Turn, now: int)
    ensures Fates(rows0, c, turns, now, 0, Report(0, 0, 0, 0, 0, 0, 0, []))
  {
    assert Skips(rows0, c, 0) == {} && Pauses(rows0, c, turns, 0) == {} && Defers(rows0, c, turns, now, 0) == {};
  }

  lemma SeenUnchanged(policy: RetryPolicy, start: System, s: System, trace: seq<Action>, report: Report, limit: nat, now: int)
    requires Going(policy, start, s, trace, report, limit, now) && s.batch != []
    ensures
      var id := s.batch[0];
      id < |s.rows| && id < |start.rows| && s.rows[id].webhook == start.rows[id].webhook
      && s.rows[id].dispatch == start.rows[id].dispatch
  {
    hide Inv, History, WereDue, Counted;
    assert s.batch[0] in s.batch;
  }

  /** What one candidate adds to the report, by its own fields. */
  ghost predicate OneMore(row: Row, id: ExecutionId, paused: bool, now: int, before: Report, after: Report) {
    && (!row.webhook ==> after == before.(scanned := before.scanned + 1, skipped := before.skipped + 1))
    && (row.webhook && paused ==> after == before.(scanned := before.scanned + 1, paused := before.paused + 1))
    && (row.webhook && !paused && ComesLater(row.dispatch.nextAttemptAt, now) ==>
          after == before.(scanned := before.scanned + 1, deferred := before.deferred + 1))
    && (row.webhook && !paused && !ComesLater(row.dispatch.nextAttemptAt, now) ==>
          after == before.(scanned := before.scanned + 1, dispatched := before.dispatched + 1,
                           executionIds := before.executionIds + [id],
                           retriesScheduled := after.retriesScheduled, deadLettered := after.deadLettered))
  }

  lemma OneMoreFate(rows0: Table, row: Row, c: seq<ExecutionId>, turns: nat -> Turn, now: int, i: nat,
                    before: Report, after: Report)
    requires i < |c| && c[i] < |rows0| && Fates(rows0, c, turns, now, i, before)
    requires Ascending(c)
    requires row.webhook == rows0[c[i]].webhook && row.dispatch == rows0[c[i]].dispatch
    requires OneMore(row, c[i], turns(i).paused, now, before, after)
    ensures Fates(rows0, c, turns, now, i + 1, after)
  {
    SkipsPush(rows0, c, i);
    PausesPush(rows0, c, turns, i);
    DefersPush(rows0, c, turns, now, i);
    hide Skips, Pauses, Defers, ComesLater;
    DispatchedPush(rows0, c, turns, now, i, before.executionIds);
    hide Dispatched;
  }

  lemma SkipsPush(rows0: Table, c: seq<ExecutionId>, i: nat)
    requires i < |c| && c[i] < |rows0|
    ensures |Skips(rows0, c, i + 1)| == |Skips(rows0, c, i)| + if !rows0[c[i]].webhook then 1 else 0
  {
    assert Skips(rows0, c, i + 1) == Skips(rows0, c, i) + if !rows0[c[i]].webhook then {i} else {};
  }

  lemma PausesPush(rows0: Table, c: seq<ExecutionId>, turns: nat -> Turn, i: nat)
    requires i < |c| && c[i] < |rows0|
    ensures |Pauses(rows0, c, turns, i + 1)|
         == |Pauses(rows0, c, turns, i)| + if rows0[c[i]].webhook && turns(i).paused then 1 else 0
  {
    var paused := turns(i).paused;
    forall k
      ensures k in Pauses(rows0, c, turns, i + 1)
         <==> k in Pauses(rows0, c, turns, i) || (k == i && rows0[c[i]].webhook && paused)
    {
    }
    var more := if rows0[c[i]].webhook && paused then {i} else {};
    assert i !in Pauses(rows0, c, turns, i);
    hide Pauses;
    assert Pauses(rows0, c, turns, i + 1) == Pauses(rows0, c, turns, i) + more;
  }

  lemma DefersPush(rows0: Table, c: seq<ExecutionId>, turns: nat -> Turn, now: int, i: nat)
    requires i < |c| && c[i] < |rows0|
    ensures
      var late := rows0[c[i]].webhook && !turns(i).paused && ComesLater(rows0[c[i]].dispatch.nextAttemptAt, now);
      |Defers(rows0, c, turns, now, i + 1)| == |Defers(rows0, c, turns, now, i)| + if late then 1 else 0
  {
    hide ComesLater;
    var late := rows0[c[i]].webhook && !turns(i).paused && ComesLater(rows0[c[i]].dispatch.nextAttemptAt, now);
    assert Defers(rows0, c, turns, now, i + 1) == Defers(rows0, c, turns, now, i) + if late then {i} else {};
  }

  lemma DispatchedPush(rows0: Table, c: seq<ExecutionId>, turns: nat -> Turn, now: int, i: nat, ids: seq<ExecutionId>)
    requires i < |c| && c[i] < |rows0| && Dispatched(rows0, c, turns, now, i, ids)
    requires Ascending(c)
    ensures
      var goes := rows0[c[i]].webhook && !turns(i).paused && !ComesLater(rows0[c[i]].dispatch.nextAttemptAt, now);
      Dispatched(rows0, c, turns, now, i + 1, if goes then ids + [c[i]] else ids)
  {
    hide ComesLater;
    assert forall k :: 0 <= k < i ==> c[k] != c[i];
    assert c[i] !in ids;
  }

  /** Exactly one counter moves; a dispatched candidate is listed and may be retried or dead-lettered. */
  ghost predicate OneFate(before: Report, after: Report, id: ExecutionId, dispatchable: bool) {
    && after.scanned == before.scanned + 1
    && after.skipped + after.paused + after.deferred + after.dispatched
       == before.skipped + before.paused + before.deferred + before.dispatched + 1
    && after.dispatched == before.dispatched + (if dispatchable then 1 else 0)
    && after.executionIds == before.executionIds + (if dispatchable then [id] else [])
    && before.retriesScheduled + before.deadLettered
       <= after.retriesScheduled + after.deadLettered
       <= before.retriesScheduled + before.deadLettered + (if dispatchable then 1 else 0)
  }

  /** What the batch loop keeps. */
  ghost predicate Going(policy: RetryPolicy, start: System, s: System, trace: seq<Action>, report: Report, limit: nat, now: int) {
    && s == History(policy, start, trace)
    && Inv(policy, s)
    && Unread(start.rows, s.rows, s.batch)
    && WereDue(start.rows, report.executionIds, s.batch, now)
    && Counted(report, limit)
  }

  lemma NothingDone(policy: RetryPolicy, start: System, now: int)
    ensures start == History(policy, start, [])
    ensures Counted(Report(0, 0, 0, 0, 0, 0, 0, []), 0) && WereDue(start.rows, [], [], now)
  {
  }

  lemma BatchScanned(policy: RetryPolicy, start: System, scanLimit: nat, limit: nat, now: int)
    requires Inv(policy, start) && start.batch == []
    ensures Going(policy, start, System(start.rows, PendingIds(start.rows, 0, scanLimit), start.open), [Scan(scanLimit)],
                  Report(0, 0, 0, 0, 0, 0, 0, []), limit, now)
  {
    OldestPending(start.rows, 0, scanLimit);
    hide Inv;
    HistoryPush(policy, start, [], Scan(scanLimit));
    assert [] + [Scan(scanLimit)] == [Scan(scanLimit)];
    NextKeepsInv(policy, start, Scan(scanLimit));
  }

  lemma BatchInterfered(policy: RetryPolicy, start: System, s: System, trace: seq<Action>, report: Report, limit: nat, now: int,
                        turns: nat -> Turn, i: nat)
    requires OnlyForeign(turns) && Going(policy, start, s, trace, report, limit, now)
    ensures
      var after := History(policy, s, turns(i).others);
      && after.batch == s.batch
      && Going(policy, start, after, trace + turns(i).others, report, limit, now)
  {
    hide Counted, WereDue;
    ForeignKeepsBatch(policy, s, turns(i).others);
    HistoryConcat(policy, start, trace, turns(i).others);
    hide Inv, History;
  }

  lemma BatchStepped(policy: RetryPolicy, start: System, s: System, trace: seq<Action>, before: Report, after: Report,
                     limit: nat, paused: bool, outcome: Outcome, now: int)
    requires Going(policy, start, s, trace, before, limit, now)
    requires s.batch != [] && s.batch[0] < |s.rows| && before.dispatched < limit
    requires OneFate(before, after, s.batch[0], Dispatchable(s.rows[s.batch[0]], paused, now))
    ensures Going(policy, start,
                  System(DispatchOne(policy, s.rows, s.batch[0], paused, outcome, now), s.batch[1..], s.open),
                  trace + [DispatchNext(paused, outcome, now)], after, limit, now)
  {
    var id := s.batch[0];
    HistoryPush(policy, start, trace, DispatchNext(paused, outcome, now));
    NextKeepsInv(policy, s, DispatchNext(paused, outcome, now));
    BatchIsDistinct(policy, s);
    DispatchOneKeepsOthers(policy, s, paused, outcome, now);
    hide Inv, History, DispatchOne;
    UnreadRest(start.rows, s.rows, s.batch, DispatchOne(policy, s.rows, id, paused, outcome, now));
    DueRest(start.rows, s.rows, s.batch, before.executionIds, paused, now);
    hide Unread, WereDue;
  }

  lemma UnreadRest(rows0: Table, rows: Table, batch: seq<ExecutionId>, after: Table)
    requires Unread(rows0, rows, batch) && batch != [] && batch[0] !in batch[1..]
    requires |after| >= |rows| && forall k :: 0 <= k < |rows| && k != batch[0] ==> after[k] == rows[k]
    ensures Unread(rows0, after, batch[1..])
  {
    assert forall x :: x in batch[1..] ==> x in batch && x != batch[0];
  }

  lemma DueRest(rows0: Table, rows: Table, batch: seq<ExecutionId>, ids: seq<ExecutionId>, paused: bool, now: int)
    requires Unread(rows0, rows, batch) && batch != [] && batch[0] !in batch[1..] && batch[0] < |rows|
    requires WereDue(rows0, ids, batch, now)
    ensures WereDue(rows0, ids + (if Dispatchable(rows[batch[0]], paused, now) then [batch[0]] else []), batch[1..], now)
  {
    assert batch[0] in batch;
    assert forall x :: x in batch[1..] ==> x in batch;
    assert ids + [] == ids;
    forall i | 0 <= i < |ids|
      ensures ids[i] != batch[0]
    {
      assert ids[i] in ids;
    }
  }

  lemma BatchIsDistinct(policy: RetryPolicy, s: System)
    requires Inv(policy, s) && s.batch != []
    ensures s.batch[0] !in s.batch[1..]
  {
  }

  lemma DispatchOneKeepsOthers(policy: RetryPolicy, s: System, paused: bool, outcome: Outcome, now: int)
    requires Inv(policy, s) && s.batch != [] && s.batch[0] < |s.rows|
    ensures
      var after := DispatchOne(policy, s.rows, s.batch[0], paused, outcome, now);
      && |after| >= |s.rows|
      && forall k :: 0 <= k < |s.rows| && k != s.batch[0] ==> after[k] == s.rows[k]
  {
    assert s.batch[0] in s.batch;
    DispatchKeeps(policy, s.rows, s.batch[0], paused, outcome, now);
  }

  lemma BatchEnded(policy: RetryPolicy, start: System, s: System, trace: seq<Action>, report: Report, limit: nat, now: int)
    requires Going(policy, start, s, trace, report, limit, now)
    ensures System(s.rows, [], s.open) == History(policy, start, trace + [DropBatch]) && Inv(policy, System(s.rows, [], s.open))
    ensures Counted(report, limit) && WereDue(start.rows, report.executionIds, [], now)
  {
    HistoryPush(policy, start, trace, DropBatch);
    NextKeepsInv(policy, s, DropBatch);
  }
}
