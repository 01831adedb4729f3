/** Dispatch incident analytics: one pass that counts incidents overall, per day and per severity. */
module IncidentAnalytics {
  import opened Common

  type Day = int

  const MINUTE := 60_000_000
  const DAY_LENGTH := 1440 * MINUTE

  /** Times are microseconds since the epoch, as the database keeps them. `resolved` is the row's
      status; a resolved row may still lack its time. */
  datatype Incident = Incident(createdAt: int, severity: string, resolved: bool, resolvedAt: Option<int>)

  datatype Stats = Stats(total: nat, resolved: nat, open: nat, slaBreaches: nat)

  const ZERO := Stats(0, 0, 0, 0)

  function DayOf(row: Incident): Day {
    row.createdAt / DAY_LENGTH
  }

  function SeverityOf(row: Incident): string {
    if row.severity == "" then "info" else row.severity
  }

  predicate IsResolved(row: Incident) {
    row.resolved && row.resolvedAt.Some?
  }

  /** The time from creation to resolution, or to now; never negative. */
  function Duration(row: Incident, now: int): nat {
    var end := if row.resolvedAt.Some? then row.resolvedAt.value else now;
    if end < row.createdAt then 0 else end - row.createdAt
  }

  predicate Breached(row: Incident, now: int, sla: int) {
    Duration(row, now) > sla * MINUTE
  }

  function Plus(a: Stats, b: Stats): Stats {
    Stats(a.total + b.total, a.resolved + b.resolved, a.open + b.open, a.slaBreaches + b.slaBreaches)
  }

  /** What one incident adds wherever it is counted. */
  function One(row: Incident, now: int, sla: int): Stats {
    Stats(1, if IsResolved(row) then 1 else 0, if IsResolved(row) then 0 else 1, if Breached(row, now, sla) then 1 else 0)
  }

  /** The reference: all rows, each looked at once. */
  function Overall(rows: seq<Incident>, now: int, sla: int): Stats {
    if rows == [] then ZERO
    else Plus(Overall(rows[..|rows| - 1], now, sla), One(rows[|rows| - 1], now, sla))
  }

  /** The same for the rows whose key is k: the rows of one day, or of one severity. */
  function Bucket<K(==)>(rows: seq<Incident>, now: int, sla: int, key: Incident -> K, k: K): Stats {
    if rows == [] then ZERO
    else
      var rest := Bucket(rows[..|rows| - 1], now, sla, key, k);
      if key(rows[|rows| - 1]) == k then Plus(rest, One(rows[|rows| - 1], now, sla)) else rest
  }

  ghost function Sum<K>(m: map<K, Stats>): Stats {
    SumOf(m, Plus, ZERO)
  }

  function Entry<K>(m: map<K, Stats>, k: K): Stats {
    if k in m then m[k] else ZERO
  }

  lemma PlusAdds()
    ensures Adds(Plus, ZERO)
  {
  }

  lemma CountedOnce<K>(m: map<K, Stats>, k: K, one: Stats)
    ensures Sum(m[k := Plus(Entry(m, k), one)]) == Plus(Sum(m), one)
  {
    PlusAdds();
    hide Adds, SumOf;
    SumAdd(m, Plus, ZERO, k, one);
  }

  /** Every bucket of a table holds the figures of its own rows, and the table adds up to the whole. */
  ghost predicate Conserves<K(!new)>(m: map<K, Stats>, rows: seq<Incident>, now: int, sla: int, key: Incident -> K) {
    && Sum(m) == Overall(rows, now, sla)
    && forall k :: Entry(m, k) == Bucket(rows, now, sla, key, k)
  }

  lemma {:induction false} OverallSplits(rows: seq<Incident>, now: int, sla: int)
    ensures Overall(rows, now, sla).total == |rows| == Overall(rows, now, sla).resolved + Overall(rows, now, sla).open
    ensures Overall(rows, now, sla).slaBreaches <= |rows|
    decreases |rows|
  {
    if rows != [] {
      OverallSplits(rows[..|rows| - 1], now, sla);
    }
  }

  /** Every day's and every severity's total splits into resolved and open. */
  lemma {:induction false} BucketSplits<K>(rows: seq<Incident>, now: int, sla: int, key: Incident -> K, k: K)
    ensures var b := Bucket(rows, now, sla, key, k); b.total == b.resolved + b.open && b.slaBreaches <= b.total <= |rows|
    decreases |rows|
  {
    if rows != [] {
      BucketSplits(rows[..|rows| - 1], now, sla, key, k);
    }
  }

  lemma BucketPush<K>(rows: seq<Incident>, now: int, sla: int, key: Incident -> K, row: Incident, k: K)
    ensures Bucket(rows + [row], now, sla, key, k)
         == if key(row) == k then Plus(Bucket(rows, now, sla, key, k), One(row, now, sla)) else Bucket(rows, now, sla, key, k)
    ensures Overall(rows + [row], now, sla) == Plus(Overall(rows, now, sla), One(row, now, sla))
  {
    assert (rows + [row])[..|rows|] == rows;
  }

  lemma Counts<K(!new)>(m: map<K, Stats>, rows: seq<Incident>, now: int, sla: int, key: Incident -> K, row: Incident)
    requires Conserves(m, rows, now, sla, key)
    ensures Conserves(m[key(row) := Plus(Entry(m, key(row)), One(row, now, sla))], rows + [row], now, sla, key)
  {
    CountedOnce(m, key(row), One(row, now, sla));
    BucketPush(rows, now, sla, key, row, key(row));
    var after := m[key(row) := Plus(Entry(m, key(row)), One(row, now, sla))];
    hide Bucket, Overall, Sum, One, Plus;
    forall k
      ensures Entry(after, k) == Bucket(rows + [row], now, sla, key, k)
    {
      BucketPush(rows, now, sla, key, row, k);
    }
  }

  /** A zero for each of the first n days of the window. */
  ghost predicate Zeros(trend: map<Day, Stats>, firstDay: Day, n: nat) {
    AllZero(trend, firstDay, n) && Sum(trend) == ZERO
  }

  ghost predicate AllZero(trend: map<Day, Stats>, firstDay: Day, n: nat) {
    && (forall d :: d in trend <==> firstDay <= d < firstDay + n)
    && (forall d :: d in trend ==> trend[d] == ZERO)
  }

  lemma AllZeroStep(trend: map<Day, Stats>, firstDay: Day, n: nat)
    requires AllZero(trend, firstDay, n)
    ensures firstDay + n !in trend && AllZero(trend[firstDay + n := ZERO], firstDay, n + 1)
  {
  }

  lemma ZeroAddsNothing(a: Stats)
    ensures Plus(a, ZERO) == a
  {
  }

  lemma SumAddZero<K>(m: map<K, Stats>, k: K)
    requires k !in m
    ensures Sum(m[k := ZERO]) == Sum(m)
  {
    hide Sum;
    CountedOnce(m, k, ZERO);
    ZeroAddsNothing(ZERO);
    ZeroAddsNothing(Sum(m));
    hide Plus;
  }

  lemma ZerosStep(trend: map<Day, Stats>, firstDay: Day, n: nat)
    requires Zeros(trend, firstDay, n)
    ensures Zeros(trend[firstDay + n := ZERO], firstDay, n + 1)
  {
    hide Sum, AllZero;
    AllZeroStep(trend, firstDay, n);
    SumAddZero(trend, firstDay + n);
  }

  lemma ZerosConserve(trend: map<Day, Stats>, firstDay: Day, n: nat, now: int, sla: int)
    requires Zeros(trend, firstDay, n)
    ensures Conserves(trend, [], now, sla, DayOf) && forall d :: firstDay <= d < firstDay + n ==> d in trend
  {
    hide Sum, DayOf;
    assert Overall([], now, sla) == ZERO;
    forall k
      ensures Entry(trend, k) == Bucket([], now, sla, DayOf, k)
    {
    }
  }

  /** The trend starts with a zero for every day of the window. */
  method SeedTrend(firstDay: Day, days: nat) returns (trend: map<Day, Stats>)
    ensures Zeros(trend, firstDay, days)
  {
    trend := map[];
    assert Zeros(trend, firstDay, 0);
    hide Zeros;
    for i := 0 to days
      invariant Zeros(trend, firstDay, i)
    {
      ZerosStep(trend, firstDay, i);
      trend := trend[firstDay + i := ZERO];
    }
  }

  /** The counters of the pass so far. */
  ghost predicate Running(rows: seq<Incident>, seen: seq<Incident>, now: int, sla: int, overall: Stats) {
    overall == Overall(seen, now, sla).(total := |rows|) && Overall(seen, now, sla).total == |seen|
  }

  lemma RunningStep(rows: seq<Incident>, seen: seq<Incident>, now: int, sla: int, overall: Stats, row: Incident)
    requires Running(rows, seen, now, sla, overall)
    ensures Running(rows, seen + [row], now, sla,
                    Stats(|rows|, overall.resolved + (if IsResolved(row) then 1 else 0),
                          overall.open + (if IsResolved(row) then 0 else 1),
                          overall.slaBreaches + (if Breached(row, now, sla) then 1 else 0)))
  {
    BucketPush(seen, now, sla, DayOf, row, DayOf(row));
    hide IsResolved, Breached, Overall, Bucket, DayOf;
  }

  lemma RunningEnd(rows: seq<Incident>, now: int, sla: int, overall: Stats)
    requires Running(rows, rows, now, sla, overall)
    ensures overall == Overall(rows, now, sla) && overall.total == |rows| == overall.resolved + overall.open
  {
    OverallSplits(rows, now, sla);
  }

  method Analyze(rows: seq<Incident>, firstDay: Day, days: nat, now: int, sla: int)
    returns (overall: Stats, trend: map<Day, Stats>, bySeverity: map<string, Stats>)
    ensures overall == Overall(rows, now, sla) && overall.total == |rows| == overall.resolved + overall.open
    ensures Conserves(trend, rows, now, sla, DayOf)
    ensures Conserves(bySeverity, rows, now, sla, SeverityOf)
    ensures forall d :: firstDay <= d < firstDay + days ==> d in trend
    ensures overall.resolved == |Where(rows, (r: Incident) => r.resolved && r.resolvedAt != None)|
    ensures overall.slaBreaches == |Where(rows, (r: Incident) => TooLong(r.createdAt, r.resolvedAt, now, sla))|
    ensures forall d ::
      Entry(trend, d).total == |Where(rows, (r: Incident) => d * 86_400_000_000 <= r.createdAt < (d + 1) * 86_400_000_000)|
    ensures forall v ::
      Entry(bySeverity, v).total == |Where(rows, (r: Incident) => r.severity == v != "" || (r.severity == "" && v == "info"))|
  {
    hide *;
    trend := SeedTrend(firstDay, days);
    ZerosConserve(trend, firstDay, days, now, sla);
    overall, bySeverity := Stats(|rows|, 0, 0, 0), map[];
    NothingCounted(rows, now, sla);
    assert rows[..0] == [];
    for i := 0 to |rows|
      invariant overall.total == |rows| && Running(rows, rows[..i], now, sla, overall)
      invariant Conserves(trend, rows[..i], now, sla, DayOf)
      invariant Conserves(bySeverity, rows[..i], now, sla, SeverityOf)
      invariant forall d :: firstDay <= d < firstDay + days ==> d in trend
    {
      var row := rows[i];
      assert rows[..i + 1] == rows[..i] + [row];
      Counts(trend, rows[..i], now, sla, DayOf, row);
      Counts(bySeverity, rows[..i], now, sla, SeverityOf, row);
      RunningStep(rows, rows[..i], now, sla, overall, row);
      var one := One(row, now, sla);
      trend := trend[DayOf(row) := Plus(Entry(trend, DayOf(row)), one)];
      bySeverity := bySeverity[SeverityOf(row) := Plus(Entry(bySeverity, SeverityOf(row)), one)];
      if IsResolved(row) {
        overall := overall.(resolved := overall.resolved + 1);
      } else {
        overall := overall.(open := overall.open + 1);
      }
      if Breached(row, now, sla) {
        overall := overall.(slaBreaches := overall.slaBreaches + 1);
      }
    }
    assert rows[..|rows|] == rows;
    RunningEnd(rows, now, sla, overall);
    OverallCounts(rows, now, sla);
    forall d
      ensures Entry(trend, d).total == |Where(rows, (r: Incident) => d * 86_400_000_000 <= r.createdAt < (d + 1) * 86_400_000_000)|
    {
      DayCounts(trend, rows, now, sla, d);
    }
    forall v
      ensures Entry(bySeverity, v).total
           == |Where(rows, (r: Incident) => r.severity == v != "" || (r.severity == "" && v == "info"))|
    {
      SeverityCounts(bySeverity, rows, now, sla, v);
    }
  }

  // ---------------------------------------------------------------- counted by their fields

  /** The positions of the incidents of a kind. */
  ghost function Where(rows: seq<Incident>, p: Incident -> bool): set<nat> {
    set i | 0 <= i < |rows| && p(rows[i])
  }

  /** More than `sla` minutes passed until the incident was resolved, or until now. */
  predicate TooLong(createdAt: int, resolvedAt: Option<int>, now: int, sla: int) {
    match resolvedAt
    case Some(end) => (if end > createdAt then end - createdAt else 0) > sla * 60_000_000
    case None => (if now > createdAt then now - createdAt else 0) > sla * 60_000_000
  }

  lemma WherePush(rows: seq<Incident>, row: Incident, p: Incident -> bool)
    ensures |Where(rows + [row], p)| == |Where(rows, p)| + if p(row) then 1 else 0
  {
    assert Where(rows + [row], p) == Where(rows, p) + if p(row) then {|rows|} else {};
  }

  lemma NoneWhere(p: Incident -> bool)
    ensures Where([], p) == {}
  {
  }

  lemma {:induction false} OverallWhere(rows: seq<Incident>, now: int, sla: int, resolved: Incident -> bool, late: Incident -> bool)
    requires forall r :: (resolved(r) <==> IsResolved(r)) && (late(r) <==> Breached(r, now, sla))
    ensures Overall(rows, now, sla).resolved == |Where(rows, resolved)|
    ensures Overall(rows, now, sla).slaBreaches == |Where(rows, late)|
    decreases |rows|
  {
    hide IsResolved, Breached, Where;
    if rows == [] {
      NoneWhere(resolved);
      NoneWhere(late);
    } else {
      var init, row := rows[..|rows| - 1], rows[|rows| - 1];
      OverallWhere(init, now, sla, resolved, late);
      assert rows == init + [row];
      WherePush(init, row, resolved);
      WherePush(init, row, late);
    }
  }

  lemma OverallCounts(rows: seq<Incident>, now: int, sla: int)
    ensures Overall(rows, now, sla).resolved == |Where(rows, (r: Incident) => r.resolved && r.resolvedAt != None)|
    ensures Overall(rows, now, sla).slaBreaches == |Where(rows, (r: Incident) => TooLong(r.createdAt, r.resolvedAt, now, sla))|
  {
    hide Overall, Where;
    OverallWhere(rows, now, sla, (r: Incident) => r.resolved && r.resolvedAt != None,
                 (r: Incident) => TooLong(r.createdAt, r.resolvedAt, now, sla));
  }

  lemma {:induction false} BucketWhere<K>(rows: seq<Incident>, now: int, sla: int, key: Incident -> K, k: K, p: Incident -> bool)
    requires forall r :: p(r) <==> key(r) == k
    ensures Bucket(rows, now, sla, key, k).total == |Where(rows, p)|
    decreases |rows|
  {
    hide IsResolved, Breached, Where;
    if rows == [] {
      NoneWhere(p);
    } else {
      var init, row := rows[..|rows| - 1], rows[|rows| - 1];
      BucketWhere(init, now, sla, key, k, p);
      assert rows == init + [row];
      WherePush(init, row, p);
    }
  }

  lemma DayCounts(trend: map<Day, Stats>, rows: seq<Incident>, now: int, sla: int, d: Day)
    requires Conserves(trend, rows, now, sla, DayOf)
    ensures Entry(trend, d).total
         == |Where(rows, (r: Incident) => d * 86_400_000_000 <= r.createdAt < (d + 1) * 86_400_000_000)|
  {
    hide Where, Bucket, Sum, Overall;
    BucketWhere(rows, now, sla, DayOf, d, (r: Incident) => d * 86_400_000_000 <= r.createdAt < (d + 1) * 86_400_000_000);
  }

  lemma SeverityCounts(bySeverity: map<string, Stats>, rows: seq<Incident>, now: int, sla: int, v: string)
    requires Conserves(bySeverity, rows, now, sla, SeverityOf)
    ensures Entry(bySeverity, v).total
         == |Where(rows, (r: Incident) => r.severity == v != "" || (r.severity == "" && v == "info"))|
  {
    hide Where, Bucket, Sum, Overall;
    BucketWhere(rows, now, sla, SeverityOf, v, (r: Incident) => r.severity == v != "" || (r.severity == "" && v == "info"));
  }

  lemma NothingCounted(rows: seq<Incident>, now: int, sla: int)
    ensures Conserves(map[], [], now, sla, SeverityOf)
    ensures Running(rows, [], now, sla, Stats(|rows|, 0, 0, 0))
  {
  }
}
