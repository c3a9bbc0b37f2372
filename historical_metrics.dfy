/** Historical metrics kept in the store so that they outlive log rotation:
    an hourly snapshot list capped at 720 entries and a daily summary list
    capped at 30, both newest first, and the read-side views over them
    (first-n reads, time-range filter, trends, the daily aggregate and the
    dashboard bundle). Floating-point rates, averages and rounding are left
    out; counts are integers. */
module HistoricalMetrics {
  import opened Wrappers
  import opened Store
  import opened Time
  import opened Sorting

  /** A metric value: a count, a list of names (`active_sources`), or anything else. */
  datatype Metric = Number(n: int) | Names(items: seq<string>) | Other(text: string)

  /** An hourly snapshot: when it was taken, its hour label, its metrics. */
  datatype Snapshot = Snapshot(timestamp: Instant, hour: string, metrics: map<string, Metric>)

  /** A daily summary as `record_daily_summary` stores it. */
  datatype DailyRecord = DailyRecord(date: string, timestamp: string, summary: map<string, Metric>)

  const HourlyCap: nat := 720
  const DailyCap: nat := 30

  function TimestampText(s: Snapshot): string {
    s.timestamp.iso
  }

  // ---------------------------------------------------------------- first-n reads

  /** `lrange(key, 0, n - 1)`, as `get_hourly_metrics(n)` and `get_daily_summaries(n)` issue it. */
  function FirstN<T>(l: seq<T>, n: int): seq<T> {
    LRange(l, 0, n - 1)
  }

  /** A positive count reads that many newest entries (or all there are);
      a count of 0 becomes `lrange(0, -1)` and reads the whole list. */
  lemma FirstNReads<T>(l: seq<T>, n: int)
    ensures n >= 1 ==> FirstN(l, n) == l[..if n <= |l| then n else |l|]
    ensures n == 0 ==> FirstN(l, n) == l
  {
    LRangeHead(l, n);
  }

  // ---------------------------------------------------------------- time range

  /** The snapshots of `l` taken between `start` and `end`, both included, in list order. */
  function InRange(l: seq<Snapshot>, start: int, end: int): (r: seq<Snapshot>)
    ensures |r| <= |l|
    decreases |l|
  {
    if l == [] then []
    else
      var s := l[|l| - 1];
      InRange(l[..|l| - 1], start, end) + (if start <= s.timestamp.micros <= end then [s] else [])
  }

  /** A snapshot is kept exactly when it is in the list and in the range. */
  lemma {:induction false} InRangeMembers(l: seq<Snapshot>, start: int, end: int, s: Snapshot)
    ensures s in InRange(l, start, end) <==> s in l && start <= s.timestamp.micros <= end
    decreases |l|
  {
    if l != [] {
      InRangeMembers(l[..|l| - 1], start, end, s);
      assert l == l[..|l| - 1] + [l[|l| - 1]];
    }
  }

  /** `get_metrics_for_timerange` on a fetched list: the range, newest first. */
  function TimeRange(l: seq<Snapshot>, start: int, end: int): seq<Snapshot> {
    SortDescByText(InRange(l, start, end), TimestampText)
  }

  /** The time-range answer holds exactly the snapshots in the range, each as
      often as in the list, ordered by descending timestamp text. */
  lemma TimeRangeSpec(l: seq<Snapshot>, start: int, end: int, s: Snapshot)
    ensures multiset(TimeRange(l, start, end)) == multiset(InRange(l, start, end))
    ensures s in TimeRange(l, start, end) <==> s in l && start <= s.timestamp.micros <= end
    ensures forall i :: 0 < i < |TimeRange(l, start, end)| ==>
      LexLe(TimestampText(TimeRange(l, start, end)[i]), TimestampText(TimeRange(l, start, end)[i - 1]))
  {
    SortDescByTextSpec(InRange(l, start, end), TimestampText);
    InRangeMembers(l, start, end, s);
    assert s in TimeRange(l, start, end) <==> s in multiset(TimeRange(l, start, end));
  }

  // ---------------------------------------------------------------- trends

  /** One point of a trend. */
  datatype TrendPoint = TrendPoint(timestamp: string, hour: string, value: Metric)

  /** `get_trend_data` on a newest-first list: the snapshots that carry the
      metric, oldest first. */
  function Trend(l: seq<Snapshot>, name: string): (r: seq<TrendPoint>)
    ensures |r| <= |l|
    decreases |l|
  {
    if l == [] then []
    else
      var s := l[0];
      Trend(l[1..], name) +
        (if name in s.metrics then [TrendPoint(s.timestamp.iso, s.hour, s.metrics[name])] else [])
  }

  /** The trend of two runs of snapshots is the trend of the older run
      followed by that of the newer one. */
  lemma {:induction false} TrendAppend(a: seq<Snapshot>, b: seq<Snapshot>, name: string)
    ensures Trend(a + b, name) == Trend(b, name) + Trend(a, name)
    decreases |a|
  {
    if a == [] {
      assert a + b == b;
    } else {
      assert (a + b)[1..] == a[1..] + b;
      TrendAppend(a[1..], b, name);
    }
  }

  /** Every trend point comes from a snapshot that carries the metric, with
      that snapshot's value. */
  lemma {:induction false} TrendPointsCarryMetric(l: seq<Snapshot>, name: string, k: nat)
    requires k < |Trend(l, name)|
    ensures exists s :: s in l && name in s.metrics && Trend(l, name)[k] == TrendPoint(s.timestamp.iso, s.hour, s.metrics[name])
    decreases |l|
  {
    var t := Trend(l[1..], name);
    if k < |t| {
      TrendPointsCarryMetric(l[1..], name, k);
      var s :| s in l[1..] && name in s.metrics && t[k] == TrendPoint(s.timestamp.iso, s.hour, s.metrics[name]);
      assert s in l;
    } else {
      assert l[0] in l;
    }
  }

  /** A list whose snapshots all carry the metric yields one point per snapshot. */
  lemma {:induction false} TrendAllCarry(l: seq<Snapshot>, name: string)
    requires forall i :: 0 <= i < |l| ==> name in l[i].metrics
    ensures |Trend(l, name)| == |l|
    decreases |l|
  {
    if l != [] {
      TrendAllCarry(l[1..], name);
    }
  }

  // ---------------------------------------------------------------- daily aggregate

  /** `h['metrics'].get(name, 0)` summed over the snapshots; `None` when some
      value is not a number (the sum raises and the summary becomes `{}`). */
  function SumOf(l: seq<Snapshot>, name: string): Option<int>
    decreases |l|
  {
    if l == [] then Some(0)
    else
      var rest := SumOf(l[1..], name);
      if name !in l[0].metrics then rest
      else match (l[0].metrics[name], rest)
        case (Number(n), Some(t)) => Some(n + t)
        case _ => None
  }

  /** The union of the list-valued `active_sources` of the snapshots. */
  function SourcesOf(l: seq<Snapshot>): (r: set<string>)
    requires l != []
    decreases |l|
  {
    var here := if "active_sources" in l[0].metrics && l[0].metrics["active_sources"].Names?
      then set x | x in l[0].metrics["active_sources"].items else {};
    if |l| == 1 then here else here + SourcesOf(l[1..])
  }

  /** The integer part of `calculate_daily_summary`. */
  datatype DailySummary = DailySummary(date: string, totalLogsProcessed: int,
                                       uniqueActiveSources: nat, activeSources: set<string>, dataPoints: nat)

  /** `calculate_daily_summary(date)`, with `dayStart` the start of `date`:
      the snapshots from the start of the day to the start of the next, both
      included; `None` (the empty answer) when there are none or a count is
      not a number. */
  function CalculateDailySummary(l: seq<Snapshot>, date: string, dayStart: int): Option<DailySummary> {
    var data := TimeRange(l, dayStart, dayStart + MicrosPerDay);
    if data == [] then None
    else match SumOf(data, "total_logs_today")
      case None => None
      case Some(total) =>
        var sources := SourcesOf(data);
        Some(DailySummary(date, total, |sources|, sources, |data|))
  }

  /** Snapshot `s` lists `x` among its active sources. */
  predicate ListsSource(s: Snapshot, x: string) {
    "active_sources" in s.metrics && s.metrics["active_sources"].Names? && x in s.metrics["active_sources"].items
  }

  /** A source counts as active for the day exactly when some snapshot of the
      day lists it. */
  lemma {:induction false} SourcesOfMembers(l: seq<Snapshot>, x: string)
    requires l != []
    ensures x in SourcesOf(l) <==> exists i :: 0 <= i < |l| && ListsSource(l[i], x)
    decreases |l|
  {
    if |l| > 1 {
      SourcesOfMembers(l[1..], x);
      if x in SourcesOf(l[1..]) {
        var i :| 0 <= i < |l[1..]| && ListsSource(l[1..][i], x);
        assert l[i + 1] == l[1..][i];
      }
      if exists i :: 0 <= i < |l| && ListsSource(l[i], x) {
        var i :| 0 <= i < |l| && ListsSource(l[i], x);
        if i > 0 {
          assert l[1..][i - 1] == l[i];
        }
      }
    }
  }

  /** The daily summary is empty when no snapshot falls in the day; otherwise
      its data points are the snapshots of the day (both ends included) and
      its unique source count is the size of its source set. */
  lemma DailySummarySpec(l: seq<Snapshot>, date: string, dayStart: int)
    ensures (forall s :: s in l ==> !(dayStart <= s.timestamp.micros <= dayStart + MicrosPerDay)) ==>
      CalculateDailySummary(l, date, dayStart).None?
    ensures CalculateDailySummary(l, date, dayStart).Some? ==>
      var d := CalculateDailySummary(l, date, dayStart).value;
      d.dataPoints == |InRange(l, dayStart, dayStart + MicrosPerDay)| && d.dataPoints > 0 &&
      d.uniqueActiveSources == |d.activeSources| && d.date == date
  {
    var data := TimeRange(l, dayStart, dayStart + MicrosPerDay);
    SortDescByTextSpec(InRange(l, dayStart, dayStart + MicrosPerDay), TimestampText);
    if data != [] {
      TimeRangeSpec(l, dayStart, dayStart + MicrosPerDay, data[0]);
      assert data[0] in data;
    }
  }

  // ---------------------------------------------------------------- dashboard bundle

  /** The non-float part of `get_dashboard_historical_data`. */
  datatype Dashboard = Dashboard(
    currentMetrics: map<string, Metric>,
    hourlySnapshots: seq<Snapshot>,
    dailySummaries: seq<DailyRecord>,
    ingestionTrend: seq<TrendPoint>, errorTrend: seq<TrendPoint>, diskTrend: seq<TrendPoint>,
    hourlyPoints: nat, dailyCount: nat,
    oldestHourly: Option<string>, newestHourly: Option<string>)

  function DashboardData(hourly: seq<Snapshot>, daily: seq<DailyRecord>): Dashboard {
    var data := FirstN(hourly, 24);
    var days := FirstN(daily, 7);
    Dashboard(
      if data != [] then data[0].metrics else map[],
      data[..if |data| < 12 then |data| else 12],
      days,
      Trend(data, "ingestion_rate"), Trend(data, "error_rate"), Trend(data, "disk_usage"),
      |data|, |days|,
      if data != [] then Some(data[|data| - 1].timestamp.iso) else None,
      if data != [] then Some(data[0].timestamp.iso) else None)
  }

  /** The dashboard shows the newest (at most) 12 of the newest 24 snapshots;
      the newest and oldest timestamps are those of the first and last of the
      24, and the daily list is the newest (at most) 7 summaries. */
  lemma DashboardSpec(hourly: seq<Snapshot>, daily: seq<DailyRecord>)
    ensures var d := DashboardData(hourly, daily);
      d.hourlySnapshots == hourly[..if |hourly| < 12 then |hourly| else 12] &&
      d.hourlyPoints == (if |hourly| < 24 then |hourly| else 24) &&
      d.dailySummaries == daily[..if |daily| < 7 then |daily| else 7] &&
      (hourly == [] <==> d.newestHourly.None?) &&
      (hourly != [] ==> d.newestHourly == Some(hourly[0].timestamp.iso) && d.currentMetrics == hourly[0].metrics) &&
      (hourly != [] ==> d.oldestHourly == Some(hourly[d.hourlyPoints - 1].timestamp.iso))
  {
    FirstNReads(hourly, 24);
    FirstNReads(daily, 7);
  }

  // ---------------------------------------------------------------- the store lists

  /** `HistoricalMetrics`: the two store lists it writes. */
  class HistoricalStore {
    var hourly: seq<Snapshot>
    var daily: seq<DailyRecord>

    /** Both lists stay within their caps. */
    predicate Capped()
      reads this
    {
      |hourly| <= HourlyCap && |daily| <= DailyCap
    }

    constructor()
      ensures hourly == [] && daily == [] && Capped()
    {
      hourly := [];
      daily := [];
    }

    /** `record_hourly_snapshot`: the snapshot is pushed and the list trimmed to 720. */
    method RecordHourlySnapshot(now: Instant, hour: string, metrics: map<string, Metric>) returns (ok: bool)
      requires Capped()
      modifies this
      ensures ok && Capped()
      ensures hourly == PushCapped(old(hourly), Snapshot(now, hour, metrics), HourlyCap)
      ensures daily == old(daily)
    {
      hourly := PushCapped(hourly, Snapshot(now, hour, metrics), HourlyCap);
      ok := true;
    }

    /** `record_daily_summary`: the record is pushed and the list trimmed to 30. */
    method RecordDailySummary(date: string, now: string, summary: map<string, Metric>) returns (ok: bool)
      requires Capped()
      modifies this
      ensures ok && Capped()
      ensures daily == PushCapped(old(daily), DailyRecord(date, now, summary), DailyCap)
      ensures hourly == old(hourly)
    {
      daily := PushCapped(daily, DailyRecord(date, now, summary), DailyCap);
      ok := true;
    }

    /** `get_metrics_for_timerange`: the loop over the whole hourly list, then the sort. */
    method GetMetricsForTimerange(start: int, end: int) returns (r: seq<Snapshot>)
      ensures r == TimeRange(hourly, start, end)
    {
      var filtered := [];
      for i := 0 to |hourly|
        invariant filtered == InRange(hourly[..i], start, end)
      {
        assert hourly[..i + 1][..i] == hourly[..i];
        var snapshot := hourly[i];
        if start <= snapshot.timestamp.micros <= end {
          filtered := filtered + [snapshot];
        }
      }
      assert hourly[..|hourly|] == hourly;
      r := SortDescByText(filtered, TimestampText);
    }

    /** `get_trend_data(name, hours)`: the loop over the read snapshots, oldest first. */
    method GetTrendData(name: string, hours: int) returns (r: seq<TrendPoint>)
      ensures r == Trend(FirstN(hourly, hours), name)
    {
      var data := FirstN(hourly, hours);
      r := [];
      var i := |data|;
      while i > 0
        invariant 0 <= i <= |data|
        invariant r == Trend(data[i..], name)
      {
        i := i - 1;
        var snapshot := data[i];
        TrendAppend([snapshot], data[i + 1..], name);
        assert [snapshot] + data[i + 1..] == data[i..];
        if name in snapshot.metrics {
          r := r + [TrendPoint(snapshot.timestamp.iso, snapshot.hour, snapshot.metrics[name])];
        }
      }
      assert data[0..] == data;
    }
  }
}
