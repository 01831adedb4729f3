/** The tenant automation scheduler: who is due, the audit rows its runs leave, and the fleet snapshot. */
module AutomationScheduler {
  import opened Common
  import Graph

  type TenantId = nat

  const FAILED_RUN_BACKOFF_MINUTES := 30

  /** One audit row. `interval` is the tenant's interval in minutes when the run took place. */
  datatype RunRow = RunRow(tenant: TenantId, createdAt: int, failed: bool, scheduled: bool, interval: int)

  datatype Config = Config(enabled: bool, intervalMinutes: int)

  datatype SkipReason = TenantDisabled | Interval | Backoff

  datatype DueState = DueState(dueNow: bool, skipReason: Option<SkipReason>, nextRunAt: Option<int>, backoffUntil: Option<int>)

  function Max(a: int, b: int): (r: int)
    ensures r >= a && r >= b && r in {a, b}
  {
    if a < b then b else a
  }

  /** Seconds that must pass after a run before the next one. */
  function Gap(interval: int, failed: bool): int {
    60 * if failed then Max(interval, FAILED_RUN_BACKOFF_MINUTES) else interval
  }

  /** The scheduler's own rule. */
  function TenantScheduleDueState(config: Config, latest: Option<RunRow>, now: int): DueState {
    if !config.enabled then DueState(false, Some(TenantDisabled), None, None)
    else if latest.None? then DueState(true, None, None, None)
    else
      var effective := if latest.value.failed then Max(config.intervalMinutes, FAILED_RUN_BACKOFF_MINUTES)
                       else config.intervalMinutes;
      var nextRunAt := latest.value.createdAt + 60 * effective;
      if now >= nextRunAt then
        DueState(true, None, None, if latest.value.failed then Some(nextRunAt) else None)
      else if latest.value.failed then DueState(false, Some(Backoff), Some(nextRunAt), Some(nextRunAt))
      else DueState(false, Some(Interval), Some(nextRunAt), None)
  }

  /** The analytics service's separate rule for the tenant's diagnostics page. */
  function AutomationWorkerDueState(config: Config, latest: Option<RunRow>, now: int): DueState {
    if !config.enabled then DueState(false, Some(TenantDisabled), None, None)
    else if latest.None? then DueState(true, None, None, None)
    else if latest.value.failed then
      var backoffUntil := latest.value.createdAt + 60 * Max(config.intervalMinutes, FAILED_RUN_BACKOFF_MINUTES);
      if now < backoffUntil then DueState(false, Some(Backoff), Some(backoffUntil), Some(backoffUntil))
      else DueState(true, None, None, Some(backoffUntil))
    else
      var nextRunAt := latest.value.createdAt + 60 * config.intervalMinutes;
      if now < nextRunAt then DueState(false, Some(Interval), Some(nextRunAt), None)
      else DueState(true, None, None, None)
  }

  predicate IsScheduledRun(row: RunRow, t: TenantId) {
    row.tenant == t && row.scheduled
  }

  predicate IsNewestRun(runs: seq<RunRow>, t: TenantId, i: nat) {
    i < |runs| && IsScheduledRun(runs[i], t) && forall j :: i < j < |runs| ==> !IsScheduledRun(runs[j], t)
  }

  /** The tenant's newest scheduled run; rows are stored in creation order. */
  function LatestScheduledRun(runs: seq<RunRow>, t: TenantId): (r: Option<RunRow>)
    ensures r.Some? ==> IsScheduledRun(r.value, t)
  {
    if runs == [] then None
    else if IsScheduledRun(runs[|runs| - 1], t) then Some(runs[|runs| - 1])
    else LatestScheduledRun(runs[..|runs| - 1], t)
  }

  lemma {:induction false} NewestIsLatest(runs: seq<RunRow>, t: TenantId, i: nat)
    requires i < |runs| && runs[i].tenant == t && runs[i].scheduled
    requires forall j :: i < j < |runs| ==> !(runs[j].tenant == t && runs[j].scheduled)
    ensures LatestScheduledRun(runs, t) == Some(runs[i])
    decreases |runs|
  {
    if i < |runs| - 1 {
      NewestIsLatest(runs[..|runs| - 1], t, i);
    }
  }

  /** The row found is the newest of its kind, and there is one unless the tenant never had a scheduled run. */
  lemma {:induction false} LatestIsNewest(runs: seq<RunRow>, t: TenantId)
    ensures LatestScheduledRun(runs, t) == None
       <==> forall i :: 0 <= i < |runs| ==> !(runs[i].tenant == t && runs[i].scheduled)
    ensures forall i :: 0 <= i < |runs| ==>
      runs[i].tenant == t && runs[i].scheduled && (forall j :: i < j < |runs| ==> !(runs[j].tenant == t && runs[j].scheduled))
      ==> LatestScheduledRun(runs, t) == Some(runs[i])
    decreases |runs|
  {
    NoneLatest(runs, t);
    hide LatestScheduledRun;
    forall i | 0 <= i < |runs| && runs[i].tenant == t && runs[i].scheduled
               && (forall j :: i < j < |runs| ==> !(runs[j].tenant == t && runs[j].scheduled))
      ensures LatestScheduledRun(runs, t) == Some(runs[i])
    {
      NewestIsLatest(runs, t, i);
    }
  }

  lemma {:induction false} NoneLatest(runs: seq<RunRow>, t: TenantId)
    ensures LatestScheduledRun(runs, t) == None
       <==> forall i :: 0 <= i < |runs| ==> !(runs[i].tenant == t && runs[i].scheduled)
    decreases |runs|
  {
    if runs != [] && !IsScheduledRun(runs[|runs| - 1], t) {
      NoneLatest(runs[..|runs| - 1], t);
      assert forall i :: 0 <= i < |runs| - 1 ==> runs[..|runs| - 1][i] == runs[i];
    }
  }

  function StateOf(runs: seq<RunRow>, configs: TenantId -> Config, t: TenantId, now: int): DueState {
    TenantScheduleDueState(configs(t), LatestScheduledRun(runs, t), now)
  }

  /** The tenants due at one instant, in scan order. */
  function DueTenants(runs: seq<RunRow>, configs: TenantId -> Config, tenants: seq<TenantId>, now: int): seq<TenantId> {
    if tenants == [] then []
    else
      DueTenants(runs, configs, tenants[..|tenants| - 1], now)
      + if StateOf(runs, configs, tenants[|tenants| - 1], now).dueNow then [tenants[|tenants| - 1]] else []
  }

  function CountReason(runs: seq<RunRow>, configs: TenantId -> Config, tenants: seq<TenantId>, now: int, reason: SkipReason): nat {
    if tenants == [] then 0
    else
      CountReason(runs, configs, tenants[..|tenants| - 1], now, reason)
      + if StateOf(runs, configs, tenants[|tenants| - 1], now).skipReason == Some(reason) then 1 else 0
  }

  /** Scheduled runs of one tenant keep their distance, and the log is in creation order. */
  ghost predicate Spaced(runs: seq<RunRow>) {
    && (forall i, j :: 0 <= i < j < |runs| ==> runs[i].createdAt <= runs[j].createdAt)
    && forall j :: 0 <= j < |runs| && runs[j].scheduled ==> Waited(runs[..j], runs[j])
  }

  /** The tenant's previous scheduled run lies at least its gap before the row. */
  ghost predicate Waited(runs: seq<RunRow>, row: RunRow) {
    match LatestScheduledRun(runs, row.tenant)
    case None => true
    case Some(previous) => row.createdAt >= previous.createdAt + Gap(row.interval, previous.failed)
  }

  /** Any two scheduled runs of a tenant, not only neighbours, are an interval apart when intervals are not negative. */
  lemma {:induction false} RunsKeepDistance(runs: seq<RunRow>, i: nat, j: nat)
    requires Spaced(runs) && i < j < |runs|
    requires runs[i].tenant == runs[j].tenant && runs[i].scheduled && runs[j].scheduled
    requires runs[j].interval >= 0
    ensures runs[j].createdAt >= runs[i].createdAt + 60 * runs[j].interval
    decreases j
  {
    var previous := LatestIndex(runs[..j], i);
    assert runs[..j][previous] == runs[previous];
  }

  lemma {:induction false} LatestIndex(runs: seq<RunRow>, i: nat) returns (k: nat)
    requires i < |runs| && runs[i].scheduled
    ensures i <= k < |runs| && LatestScheduledRun(runs, runs[i].tenant) == Some(runs[k])
    decreases |runs|
  {
    var last := |runs| - 1;
    if runs[last].tenant == runs[i].tenant && runs[last].scheduled {
      k := last;
    } else {
      k := LatestIndex(runs[..last], i);
    }
  }

  datatype Report = Report(lockAcquired: bool, scanned: nat, enabled: nat, due: nat, skippedInterval: nat, skippedBackoff: nat,
                           failedTenants: nat, tenantIds: seq<TenantId>)

  lemma SpacedAppend(runs: seq<RunRow>, row: RunRow)
    requires Spaced(runs) && (row.scheduled ==> Waited(runs, row))
    requires runs != [] ==> runs[|runs| - 1].createdAt <= row.createdAt
    ensures Spaced(runs + [row])
  {
    hide Waited;
    var after := runs + [row];
    forall j | 0 <= j < |after| && after[j].scheduled
      ensures Waited(after[..j], after[j])
    {
      assert after[..j] == if j < |runs| then runs[..j] else runs;
    }
  }

  /** The tenants run so far are the due ones among those scanned, and the log grew by one row for each. */
  ghost predicate Evaluated(runs0: seq<RunRow>, runs: seq<RunRow>, configs: TenantId -> Config, scanned: seq<TenantId>,
                            now: int, report: Report) {
    && report.scanned == |scanned|
    && report.tenantIds == DueTenants(runs0, configs, scanned, now)
    && report.due == |report.tenantIds|
    && report.skippedInterval == CountReason(runs0, configs, scanned, now, Interval)
    && report.skippedBackoff == CountReason(runs0, configs, scanned, now, Backoff)
    && report.enabled == report.due + report.skippedInterval + report.skippedBackoff
    && report.failedTenants <= report.due
    && runs0 <= runs && RowsFor(runs[|runs0|..], report.tenantIds)
  }

  ghost predicate RowsFor(rows: seq<RunRow>, ids: seq<TenantId>) {
    |rows| == |ids| && forall k :: 0 <= k < |rows| ==> rows[k].tenant == ids[k] && rows[k].scheduled
  }

  /** The audit rows of an evaluation, one for each tenant it ran: when, how it ended, and under which interval. */
  ghost predicate Audited(rows: seq<RunRow>, ids: seq<TenantId>, configs: TenantId -> Config, fails: TenantId -> bool,
                          stamps: nat -> int, failedTenants: nat) {
    && |rows| == |ids|
    && (forall k :: 0 <= k < |ids| ==>
          && rows[k].tenant == ids[k] && rows[k].scheduled && rows[k].createdAt == stamps(k)
          && rows[k].failed == fails(ids[k]) && rows[k].interval == configs(ids[k]).intervalMinutes)
    && failedTenants == |FailedAmong(ids, fails)|
  }

  /** The positions of the tenants whose runs fail. */
  ghost function FailedAmong(ids: seq<TenantId>, fails: TenantId -> bool): set<nat> {
    set k | 0 <= k < |ids| && fails(ids[k])
  }

  lemma FailedPush(ids: seq<TenantId>, t: TenantId, fails: TenantId -> bool)
    ensures |FailedAmong(ids + [t], fails)| == |FailedAmong(ids, fails)| + if fails(t) then 1 else 0
  {
    assert FailedAmong(ids + [t], fails) == FailedAmong(ids, fails) + if fails(t) then {|ids|} else {};
  }

  lemma NothingAudited(runs: seq<RunRow>, configs: TenantId -> Config, fails: TenantId -> bool, stamps: nat -> int)
    ensures Audited(runs[|runs|..], [], configs, fails, stamps, 0)
  {
  }

  lemma AuditedPush(runs0: seq<RunRow>, runs: seq<RunRow>, ids: seq<TenantId>, configs: TenantId -> Config,
                    fails: TenantId -> bool, stamps: nat -> int, failedTenants: nat, row: RunRow)
    requires runs0 <= runs && Audited(runs[|runs0|..], ids, configs, fails, stamps, failedTenants)
    requires row == RunRow(row.tenant, stamps(|ids|), fails(row.tenant), true, configs(row.tenant).intervalMinutes)
    ensures Audited((runs + [row])[|runs0|..], ids + [row.tenant], configs, fails, stamps,
                    failedTenants + if fails(row.tenant) then 1 else 0)
  {
    assert (runs + [row])[|runs0|..] == runs[|runs0|..] + [row];
    FailedPush(ids, row.tenant, fails);
    hide FailedAmong;
  }

  /** Rows written for other tenants leave a tenant's latest run as it was. */
  lemma {:induction false} LatestUntouched(runs0: seq<RunRow>, runs: seq<RunRow>, t: TenantId)
    requires runs0 <= runs
    requires forall k :: |runs0| <= k < |runs| ==> runs[k].tenant != t
    ensures LatestScheduledRun(runs, t) == LatestScheduledRun(runs0, t)
    decreases |runs|
  {
    if |runs| > |runs0| {
      var init := runs[..|runs| - 1];
      assert runs0 <= init;
      LatestUntouched(runs0, init, t);
    } else {
      assert runs == runs0;
    }
  }

  lemma {:induction false} DueTenantsAreScanned(runs: seq<RunRow>, configs: TenantId -> Config, tenants: seq<TenantId>, now: int)
    ensures forall t :: t in DueTenants(runs, configs, tenants, now) <==> t in tenants && StateOf(runs, configs, t, now).dueNow
    decreases |tenants|
  {
    if tenants != [] {
      DueTenantsAreScanned(runs, configs, tenants[..|tenants| - 1], now);
      assert tenants == tenants[..|tenants| - 1] + [tenants[|tenants| - 1]];
    }
  }

  lemma {:induction false} DueTenantsPrefix(runs: seq<RunRow>, configs: TenantId -> Config, a: seq<TenantId>, b: seq<TenantId>, now: int)
    ensures DueTenants(runs, configs, a, now) <= DueTenants(runs, configs, a + b, now)
    decreases |b|
  {
    if b == [] {
      assert a + b == a;
    } else {
      DueTenantsPrefix(runs, configs, a, b[..|b| - 1], now);
      assert (a + b)[..|a + b| - 1] == a + b[..|b| - 1];
    }
  }

  lemma NotYetRun(runs0: seq<RunRow>, runs: seq<RunRow>, configs: TenantId -> Config, scanned: seq<TenantId>, now: int,
                  report: Report, t: TenantId)
    requires Evaluated(runs0, runs, configs, scanned, now, report) && t !in scanned
    ensures LatestScheduledRun(runs, t) == LatestScheduledRun(runs0, t)
  {
    DueTenantsAreScanned(runs0, configs, scanned, now);
    forall k | |runs0| <= k < |runs|
      ensures runs[k].tenant != t
    {
      assert runs[k] == runs[|runs0|..][k - |runs0|];
      assert report.tenantIds[k - |runs0|] in report.tenantIds;
    }
    LatestUntouched(runs0, runs, t);
  }

  /** One more tenant scanned and not run. */
  lemma Passed(runs0: seq<RunRow>, runs: seq<RunRow>, configs: TenantId -> Config, scanned: seq<TenantId>, now: int,
               before: Report, t: TenantId, state: DueState)
    requires Evaluated(runs0, runs, configs, scanned, now, before)
    requires state == StateOf(runs0, configs, t, now) && !state.dueNow
    ensures Evaluated(runs0, runs, configs, scanned + [t], now,
      if state.skipReason == Some(TenantDisabled) then before.(scanned := before.scanned + 1)
      else if state.skipReason == Some(Interval) then
        before.(scanned := before.scanned + 1, enabled := before.enabled + 1, skippedInterval := before.skippedInterval + 1)
      else before.(scanned := before.scanned + 1, enabled := before.enabled + 1, skippedBackoff := before.skippedBackoff + 1))
  {
    assert (scanned + [t])[..|scanned|] == scanned;
  }

  /** One more tenant scanned, run and audited. */
  lemma Ran(runs0: seq<RunRow>, runs: seq<RunRow>, configs: TenantId -> Config, scanned: seq<TenantId>, now: int,
            before: Report, t: TenantId, row: RunRow)
    requires Evaluated(runs0, runs, configs, scanned, now, before)
    requires StateOf(runs0, configs, t, now).dueNow && row.tenant == t && row.scheduled
    ensures Evaluated(runs0, runs + [row], configs, scanned + [t], now,
      before.(scanned := before.scanned + 1, enabled := before.enabled + 1, due := before.due + 1,
              tenantIds := before.tenantIds + [t],
              failedTenants := before.failedTenants + if row.failed then 1 else 0))
  {
    assert (scanned + [t])[..|scanned|] == scanned;
    assert StateOf(runs0, configs, t, now).skipReason == None;
    hide StateOf, LatestScheduledRun;
    assert (runs + [row])[|runs0|..] == runs[|runs0|..] + [row];
  }

  /** The database clock: it never runs backwards, and it is not behind the scheduler's own reading. */
  ghost predicate MonotoneClock(runs: seq<RunRow>, now: int, stamps: nat -> int) {
    && (forall i: nat, j: nat :: i <= j ==> stamps(i) <= stamps(j))
    && now <= stamps(0)
    && (runs != [] ==> runs[|runs| - 1].createdAt <= stamps(0))
  }

  class SchedulerLog {
    var runs: seq<RunRow>

    method RecordRun(row: RunRow)
      modifies this
      ensures runs == old(runs) + [row]
    {
      runs := runs + [row];
    }

    /** One evaluation under the leader lock; without the lock nothing happens. */
    method Evaluate(lockAcquired: bool, tenants: seq<TenantId>, configs: TenantId -> Config, limit: int, now: int,
                    fails: TenantId -> bool, stamps: nat -> int)
      returns (report: Report, ghost scanned: nat)
      requires Spaced(runs) && MonotoneClock(runs, now, stamps)
      requires Graph.Distinct(tenants)
      modifies this
      ensures Spaced(runs)
      ensures !lockAcquired ==> runs == old(runs) && !report.lockAcquired && report.due == 0
      ensures lockAcquired ==>
        && scanned <= |tenants|
        && Evaluated(old(runs), runs, configs, tenants[..scanned], now, report)
        && Audited(runs[|old(runs)|..], report.tenantIds, configs, fails, stamps, report.failedTenants)
        && report.due <= Max(limit, 1)
        && (report.due < Max(limit, 1) ==> report.tenantIds == DueTenants(old(runs), configs, tenants, now))
        && report.tenantIds <= DueTenants(old(runs), configs, tenants, now)
    {
      hide *;
      report, scanned := Report(lockAcquired, 0, 0, 0, 0, 0, 0, []), 0;
      var tenantLimit := Max(limit, 1);
      if !lockAcquired {
        return;
      }
      ghost var runs0 := runs;
      NothingEvaluated(runs0, configs, tenants, now, report);
      NothingAudited(runs0, configs, fails, stamps);
      NothingStamped(runs0, now, stamps);
      var i := 0;
      while i < |tenants| && report.due < tenantLimit
        invariant i <= |tenants| && report.lockAcquired && report.due <= tenantLimit
        invariant Evaluated(runs0, runs, configs, tenants[..i], now, report)
        invariant Stamped(runs0, runs, now, stamps, report.due)
        invariant runs0 <= runs && |report.tenantIds| == report.due
        invariant Audited(runs[|runs0|..], report.tenantIds, configs, fails, stamps, report.failedTenants)
      {
        var t := tenants[i];
        ghost var before := report;
        NotYetScanned(tenants, i);
        assert tenants[..i + 1] == tenants[..i] + [t];
        NotYetRun(runs0, runs, configs, tenants[..i], now, report, t);
        var state := TenantScheduleDueState(configs(t), LatestScheduledRun(runs, t), now);
        StateUnchanged(runs0, runs, configs, t, now, state);
        report := report.(scanned := report.scanned + 1);
        if configs(t).enabled {
          report := report.(enabled := report.enabled + 1);
          if state.skipReason == Some(Interval) {
            report := report.(skippedInterval := report.skippedInterval + 1);
            Passed(runs0, runs, configs, tenants[..i], now, before, t, state);
          } else if state.skipReason == Some(Backoff) {
            report := report.(skippedBackoff := report.skippedBackoff + 1);
            Passed(runs0, runs, configs, tenants[..i], now, before, t, state);
          } else {
            var row := RunRow(t, stamps(report.due), fails(t), true, configs(t).intervalMinutes);
            Ran(runs0, runs, configs, tenants[..i], now, before, t, row);
            StampedAppend(runs0, runs, configs, now, stamps, report.due, row);
            AuditedPush(runs0, runs, report.tenantIds, configs, fails, stamps, report.failedTenants, row);
            RecordRun(row);
            report := report.(due := report.due + 1, tenantIds := report.tenantIds + [t],
                              failedTenants := report.failedTenants + if fails(t) then 1 else 0);
          }
        } else {
          Passed(runs0, runs, configs, tenants[..i], now, before, t, state);
        }
        i := i + 1;
      }
      scanned := i;
      StampedIsSpaced(runs0, runs, now, stamps, report.due);
      EvaluatedPrefix(runs0, runs, configs, tenants, i, now, report);
    }
  }

  lemma NotYetScanned(tenants: seq<TenantId>, i: nat)
    requires Graph.Distinct(tenants) && i < |tenants|
    ensures tenants[i] !in tenants[..i]
  {
  }

  lemma NothingEvaluated(runs: seq<RunRow>, configs: TenantId -> Config, tenants: seq<TenantId>, now: int, report: Report)
    requires report == Report(true, 0, 0, 0, 0, 0, 0, [])
    ensures Evaluated(runs, runs, configs, tenants[..0], now, report)
  {
    assert runs[|runs|..] == [];
  }

  /** With the latest run known, the state has one of four shapes. */
  lemma StateUnchanged(runs0: seq<RunRow>, runs: seq<RunRow>, configs: TenantId -> Config, t: TenantId, now: int, state: DueState)
    requires LatestScheduledRun(runs, t) == LatestScheduledRun(runs0, t)
    requires state == TenantScheduleDueState(configs(t), LatestScheduledRun(runs, t), now)
    ensures state == StateOf(runs0, configs, t, now)
    ensures !configs(t).enabled <==> state.skipReason == Some(TenantDisabled)
    ensures state.dueNow <==> state.skipReason == None
    ensures state.skipReason in {None, Some(TenantDisabled), Some(Interval), Some(Backoff)}
  {
  }

  /** The log in the middle of an evaluation that has written `due` rows. */
  ghost predicate Stamped(runs0: seq<RunRow>, runs: seq<RunRow>, now: int, stamps: nat -> int, due: nat) {
    && MonotoneClock(runs0, now, stamps)
    && Spaced(runs)
    && (due > 0 ==> runs != [] && runs[|runs| - 1].createdAt <= stamps(due))
    && (due == 0 ==> runs == runs0)
  }

  lemma NothingStamped(runs: seq<RunRow>, now: int, stamps: nat -> int)
    requires Spaced(runs) && MonotoneClock(runs, now, stamps)
    ensures Stamped(runs, runs, now, stamps, 0)
  {
  }

  lemma StampedIsSpaced(runs0: seq<RunRow>, runs: seq<RunRow>, now: int, stamps: nat -> int, due: nat)
    requires Stamped(runs0, runs, now, stamps, due)
    ensures Spaced(runs)
  {
  }

  lemma StampedAppend(runs0: seq<RunRow>, runs: seq<RunRow>, configs: TenantId -> Config, now: int, stamps: nat -> int,
                      due: nat, row: RunRow)
    requires Stamped(runs0, runs, now, stamps, due)
    requires TenantScheduleDueState(configs(row.tenant), LatestScheduledRun(runs, row.tenant), now).dueNow
    requires row.interval == configs(row.tenant).intervalMinutes && row.createdAt == stamps(due)
    ensures Stamped(runs0, runs + [row], now, stamps, due + 1)
  {
    hide *;
    StampFollows(runs0, runs, now, stamps, due);
    DueMeansGap(configs, runs, row.tenant, now, row);
    SpacedAppend(runs, row);
    StampedRow(runs0, runs, now, stamps, due, row);
  }

  lemma StampedRow(runs0: seq<RunRow>, runs: seq<RunRow>, now: int, stamps: nat -> int, due: nat, row: RunRow)
    requires Stamped(runs0, runs, now, stamps, due) && Spaced(runs + [row])
    requires row.createdAt <= stamps(due + 1)
    ensures Stamped(runs0, runs + [row], now, stamps, due + 1)
  {
    hide Spaced;
  }

  lemma StampFollows(runs0: seq<RunRow>, runs: seq<RunRow>, now: int, stamps: nat -> int, due: nat)
    requires Stamped(runs0, runs, now, stamps, due)
    ensures now <= stamps(due) <= stamps(due + 1) && Spaced(runs)
    ensures runs != [] ==> runs[|runs| - 1].createdAt <= stamps(due)
  {
    hide Spaced;
    assert stamps(0) <= stamps(due);
  }

  /** A tenant found due has waited out its gap by the time its audit row is written. */
  lemma DueMeansGap(configs: TenantId -> Config, runs: seq<RunRow>, t: TenantId, now: int, row: RunRow)
    requires TenantScheduleDueState(configs(t), LatestScheduledRun(runs, t), now).dueNow
    requires row.tenant == t && row.interval == configs(t).intervalMinutes && now <= row.createdAt
    ensures Waited(runs, row)
  {
  }

  lemma EvaluatedPrefix(runs0: seq<RunRow>, runs: seq<RunRow>, configs: TenantId -> Config, tenants: seq<TenantId>, i: nat,
                        now: int, report: Report)
    requires i <= |tenants| && Evaluated(runs0, runs, configs, tenants[..i], now, report)
    ensures report.tenantIds <= DueTenants(runs0, configs, tenants, now)
    ensures i == |tenants| ==> report.tenantIds == DueTenants(runs0, configs, tenants, now)
  {
    DueTenantsPrefix(runs0, configs, tenants[..i], tenants[i..], now);
    assert tenants[..i] + tenants[i..] == tenants;
    assert i == |tenants| ==> tenants[..i] == tenants;
  }

  datatype Snapshot = Snapshot(total: nat, enabled: nat, disabled: nat, due: nat, intervalWaiting: nat, backoff: nat,
                               dueIds: seq<TenantId>)

  /** The read-only fleet snapshot: it calls due exactly the tenants an unlimited evaluation would run. */
  method InspectFleet(runs: seq<RunRow>, tenants: seq<TenantId>, configs: TenantId -> Config, now: int) returns (s: Snapshot)
    ensures s.total == |tenants| == s.enabled + s.disabled
    ensures s.enabled == s.due + s.intervalWaiting + s.backoff
    ensures s.disabled == CountReason(runs, configs, tenants, now, TenantDisabled)
    ensures s.intervalWaiting == CountReason(runs, configs, tenants, now, Interval)
    ensures s.backoff == CountReason(runs, configs, tenants, now, Backoff)
    ensures s.dueIds == DueTenants(runs, configs, tenants, now) && s.due == |s.dueIds|
  {
    s := Snapshot(|tenants|, 0, 0, 0, 0, 0, []);
    for i := 0 to |tenants|
      invariant s.total == |tenants| && i == s.enabled + s.disabled
      invariant s.enabled == s.due + s.intervalWaiting + s.backoff
      invariant s.disabled == CountReason(runs, configs, tenants[..i], now, TenantDisabled)
      invariant s.intervalWaiting == CountReason(runs, configs, tenants[..i], now, Interval)
      invariant s.backoff == CountReason(runs, configs, tenants[..i], now, Backoff)
      invariant s.dueIds == DueTenants(runs, configs, tenants[..i], now) && s.due == |s.dueIds|
    {
      assert tenants[..i + 1][..i] == tenants[..i];
      var state := TenantScheduleDueState(configs(tenants[i]), LatestScheduledRun(runs, tenants[i]), now);
      if configs(tenants[i]).enabled {
        s := s.(enabled := s.enabled + 1);
      } else {
        s := s.(disabled := s.disabled + 1);
      }
      if state.dueNow {
        s := s.(due := s.due + 1, dueIds := s.dueIds + [tenants[i]]);
      } else if state.skipReason == Some(Interval) {
        s := s.(intervalWaiting := s.intervalWaiting + 1);
      } else if state.skipReason == Some(Backoff) {
        s := s.(backoff := s.backoff + 1);
      }
    }
    assert tenants[..|tenants|] == tenants;
  }

  /** The rule in one line: an enabled tenant is due when it has not run, or its interval has passed, thirty minutes at
      least after a failed run; otherwise it is in backoff after a failed run and within its interval after another. */
  lemma DueRule(config: Config, latest: Option<RunRow>, now: int)
    ensures
      var s := TenantScheduleDueState(config, latest, now);
      var wait := if latest.Some? && latest.value.failed && config.intervalMinutes < 30 then 30 else config.intervalMinutes;
      && (s.dueNow <==> config.enabled && (latest == None || now >= latest.value.createdAt + 60 * wait))
      && s.skipReason == (if !config.enabled then Some(TenantDisabled)
                          else if s.dueNow then None
                          else if latest.value.failed then Some(Backoff) else Some(Interval))
  {
  }

  /** The end of the backoff that a failed run at `at` puts on a tenant with the given interval. */
  function BackoffEnd(at: int, interval: int): int {
    at + 60 * if interval < 30 then 30 else interval
  }

  lemma FailedRunBacksOff(runs: seq<RunRow>, i: nat, configs: TenantId -> Config, t: TenantId, now: int)
    requires IsNewestRun(runs, t, i) && runs[i].failed && configs(t).enabled
    requires now < BackoffEnd(runs[i].createdAt, configs(t).intervalMinutes)
    ensures !StateOf(runs, configs, t, now).dueNow && StateOf(runs, configs, t, now).skipReason == Some(Backoff)
  {
    LatestIsNewest(runs, t);
    DueRule(configs(t), LatestScheduledRun(runs, t), now);
  }

  /** One evaluation as it was carried out. */
  datatype Round = Round(configs: TenantId -> Config, scanned: seq<TenantId>, now: int, report: Report)

  /** Evaluations one after another, from log to log. */
  ghost predicate Rounds(logs: seq<seq<RunRow>>, rounds: seq<Round>) {
    && |logs| == |rounds| + 1
    && forall r :: 0 <= r < |rounds| ==>
         Evaluated(logs[r], logs[r + 1], rounds[r].configs, rounds[r].scanned, rounds[r].now, rounds[r].report)
  }

  /** A tenant whose newest run failed is skipped for backoff by every later evaluation within the backoff,
      however many there are, and its failed run stays its newest. */
  lemma {:induction false} BackoffHolds(logs: seq<seq<RunRow>>, rounds: seq<Round>, n: nat, i: nat, t: TenantId)
    requires Rounds(logs, rounds) && n <= |rounds|
    requires IsNewestRun(logs[0], t, i) && logs[0][i].failed
    requires forall r :: 0 <= r < n ==>
      rounds[r].configs(t).enabled && rounds[r].now < BackoffEnd(logs[0][i].createdAt, rounds[r].configs(t).intervalMinutes)
    ensures IsNewestRun(logs[n], t, i) && logs[n][i] == logs[0][i]
    ensures forall r :: 0 <= r < n ==>
      && t !in rounds[r].report.tenantIds
      && StateOf(logs[r], rounds[r].configs, t, rounds[r].now).skipReason == Some(Backoff)
    decreases n
  {
    if n > 0 {
      BackoffHolds(logs, rounds, n - 1, i, t);
      var last := rounds[n - 1];
      FailedRunBacksOff(logs[n - 1], i, last.configs, t, last.now);
      NotRunIsUntouched(logs[n - 1], logs[n], last.configs, last.scanned, last.now, last.report, t, i);
      hide IsNewestRun, Evaluated, StateOf, BackoffEnd;
    }
  }

  lemma NotRunIsUntouched(runs0: seq<RunRow>, runs: seq<RunRow>, configs: TenantId -> Config, scanned: seq<TenantId>,
                          now: int, report: Report, t: TenantId, i: nat)
    requires Evaluated(runs0, runs, configs, scanned, now, report) && !StateOf(runs0, configs, t, now).dueNow
    requires IsNewestRun(runs0, t, i)
    ensures t !in report.tenantIds && IsNewestRun(runs, t, i) && runs[i] == runs0[i]
  {
    DueTenantsAreScanned(runs0, configs, scanned, now);
    hide StateOf, DueTenants, CountReason;
    forall j | |runs0| <= j < |runs|
      ensures runs[j].tenant != t
    {
      assert runs[j] == runs[|runs0|..][j - |runs0|];
      assert report.tenantIds[j - |runs0|] in report.tenantIds;
    }
  }

  /** A run that an evaluation recorded as failed is the tenant's newest from then on. */
  lemma RecordedIsNewest(runs0: seq<RunRow>, runs: seq<RunRow>, ids: seq<TenantId>, configs: TenantId -> Config,
                         fails: TenantId -> bool, stamps: nat -> int, failedTenants: nat, k: nat)
    requires runs0 <= runs && Audited(runs[|runs0|..], ids, configs, fails, stamps, failedTenants) && k < |ids|
    requires Graph.Distinct(ids)
    ensures IsNewestRun(runs, ids[k], |runs0| + k)
    ensures runs[|runs0| + k].failed == fails(ids[k]) && runs[|runs0| + k].createdAt == stamps(k)
  {
    forall j | |runs0| <= j < |runs|
      ensures runs[j].tenant == ids[j - |runs0|] && runs[j].scheduled
    {
      assert runs[j] == runs[|runs0|..][j - |runs0|];
    }
    assert runs[|runs0| + k] == runs[|runs0|..][k];
  }

  lemma {:induction false} DueTenantsAreDistinct(runs: seq<RunRow>, configs: TenantId -> Config, tenants: seq<TenantId>, now: int)
    requires Graph.Distinct(tenants)
    ensures Graph.Distinct(DueTenants(runs, configs, tenants, now))
    decreases |tenants|
  {
    hide StateOf;
    if tenants != [] {
      var init, last := tenants[..|tenants| - 1], tenants[|tenants| - 1];
      DueTenantsAreDistinct(runs, configs, init, now);
      DueTenantsAreScanned(runs, configs, init, now);
      assert last !in init;
      DistinctPush(DueTenants(runs, configs, init, now), last);
      hide Graph.Distinct;
    }
  }

  lemma DistinctPush(s: seq<TenantId>, x: TenantId)
    requires Graph.Distinct(s) && x !in s
    ensures Graph.Distinct(s + [x]) && Graph.Distinct(s + [])
  {
    assert s + [] == s;
  }

  /** From one evaluation to the later ones: a tenant whose run failed in an evaluation is skipped for backoff by
      every later evaluation that comes before the backoff ends. */
  lemma FailureIsFollowedByBackoff(runs0: seq<RunRow>, first: Round, fails: TenantId -> bool, stamps: nat -> int,
                                   logs: seq<seq<RunRow>>, rounds: seq<Round>, k: nat)
    requires Rounds(logs, rounds)
    requires Evaluated(runs0, logs[0], first.configs, first.scanned, first.now, first.report)
    requires Audited(logs[0][|runs0|..], first.report.tenantIds, first.configs, fails, stamps, first.report.failedTenants)
    requires Graph.Distinct(first.scanned)
    requires k < |first.report.tenantIds| && fails(first.report.tenantIds[k])
    requires forall r :: 0 <= r < |rounds| ==>
      var config := rounds[r].configs(first.report.tenantIds[k]);
      config.enabled && rounds[r].now < BackoffEnd(stamps(k), config.intervalMinutes)
    ensures forall r :: 0 <= r < |rounds| ==>
      && first.report.tenantIds[k] !in rounds[r].report.tenantIds
      && StateOf(logs[r], rounds[r].configs, first.report.tenantIds[k], rounds[r].now).skipReason == Some(Backoff)
  {
    var ids := first.report.tenantIds;
    DueTenantsAreDistinct(runs0, first.configs, first.scanned, first.now);
    assert ids == DueTenants(runs0, first.configs, first.scanned, first.now) && runs0 <= logs[0];
    RecordedIsNewest(runs0, logs[0], ids, first.configs, fails, stamps, first.report.failedTenants, k);
    hide Rounds, Evaluated, Audited, StateOf, IsNewestRun, BackoffEnd;
    BackoffHolds(logs, rounds, |rounds|, |runs0| + k, ids[k]);
  }

  /** The scheduler and the diagnostics page always agree about a tenant. */
  lemma DueStatesAgree(config: Config, latest: Option<RunRow>, now: int)
    ensures TenantScheduleDueState(config, latest, now) == AutomationWorkerDueState(config, latest, now)
  {
  }
}
