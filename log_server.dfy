/** The troubleshooting endpoints of the main log server: the health score,
    the `log=` dispatch of `/logger/host=<host>`, the troubleshooting summary,
    the component listing, and the error categorisation behind
    `common_errors`. The queries go to the Redis-backed log processor, whose
    `get_logs` is `LegacyService.GetLogsFrom`. */
module LogServer {
  import opened Wrappers
  import opened Text
  import opened PySeq
  import opened Tally
  import opened ComponentStats
  import opened LegacyProcessor
  import opened LegacyService

  // ---------------------------------------------------------------- health

  /** The status word for a health score. */
  function HealthStatus(score: int): string {
    if score >= 75 then "healthy" else if score >= 50 then "degraded" else "unhealthy"
  }

  /** The HTTP code of `/health` for a health score. */
  function HealthCode(score: int): int {
    if score >= 75 then 200 else 503
  }

  function OkCount(flags: seq<bool>): (n: nat)
    ensures n <= |flags|
  {
    if flags == [] then 0 else (if flags[0] then 1 else 0) + OkCount(flags[1..])
  }

  lemma OkCountFour(a: bool, b: bool, c: bool, d: bool)
    ensures OkCount([a, b, c, d]) == (if a then 1 else 0) + (if b then 1 else 0) + (if c then 1 else 0) + (if d then 1 else 0)
  {
    assert OkCount([d]) == (if d then 1 else 0) by {
      assert [d][1..] == [];
    }
    assert OkCount([c, d]) == (if c then 1 else 0) + OkCount([d]) by {
      assert [c, d][1..] == [d];
    }
    assert OkCount([b, c, d]) == (if b then 1 else 0) + OkCount([c, d]) by {
      assert [b, c, d][1..] == [c, d];
    }
    assert [a, b, c, d][1..] == [b, c, d];
  }

  /** `'ok' if flag else 'error'` */
  function ComponentWord(ok: bool): string {
    if ok then "ok" else "error"
  }

  /** `health_check`: 25 points for each of Redis answering, the file
      monitor running, the scheduler running and the log processor being
      present. A server that could not build its Redis client, monitor or
      scheduler passes `false` for it. */
  method HealthCheck(redisOk: bool, monitorOk: bool, schedulerOk: bool, processorPresent: bool)
    returns (score: nat, status: string, components: map<string, string>, code: int)
    ensures score == 25 * OkCount([redisOk, monitorOk, schedulerOk, processorPresent])
    ensures status == HealthStatus(score) && code == HealthCode(score)
    ensures components.Keys == {"redis", "file_monitor", "scheduler", "log_processor"}
    ensures components["redis"] == ComponentWord(redisOk) && components["file_monitor"] == ComponentWord(monitorOk)
    ensures components["scheduler"] == ComponentWord(schedulerOk) && components["log_processor"] == ComponentWord(processorPresent)
  {
    score := 0;
    if redisOk {
      score := score + 25;
    }
    if monitorOk {
      score := score + 25;
    }
    if schedulerOk {
      score := score + 25;
    }
    if processorPresent {
      score := score + 25;
    }
    status := if score >= 75 then "healthy" else if score >= 50 then "degraded" else "unhealthy";
    components := map["redis" := ComponentWord(redisOk), "file_monitor" := ComponentWord(monitorOk),
                      "scheduler" := ComponentWord(schedulerOk), "log_processor" := ComponentWord(processorPresent)];
    code := if score >= 75 then 200 else 503;
    OkCountFour(redisOk, monitorOk, schedulerOk, processorPresent);
  }

  /** The score is one of 0, 25, 50, 75 and 100; the server is healthy, and
      answers 200, exactly when at least three of the four checks pass, and
      degraded exactly when two pass. */
  lemma HealthScoreLevels(flags: seq<bool>)
    requires |flags| == 4
    ensures 25 * OkCount(flags) in {0, 25, 50, 75, 100}
    ensures HealthStatus(25 * OkCount(flags)) == "healthy" <==> OkCount(flags) >= 3
    ensures HealthStatus(25 * OkCount(flags)) == "degraded" <==> OkCount(flags) == 2
    ensures HealthCode(25 * OkCount(flags)) == 200 <==> HealthStatus(25 * OkCount(flags)) == "healthy"
    ensures HealthCode(25 * OkCount(flags)) == 503 <==> HealthStatus(25 * OkCount(flags)) != "healthy"
  {
  }

  /** Losing a check never raises the score. */
  lemma {:induction false} HealthMonotone(a: seq<bool>, b: seq<bool>)
    requires |a| == |b| && forall i :: 0 <= i < |a| && a[i] ==> b[i]
    ensures OkCount(a) <= OkCount(b)
  {
    if a != [] {
      HealthMonotone(a[1..], b[1..]);
    }
  }

  // ---------------------------------------------------------------- error categories

  /** The keywords of `_analyze_common_errors`, two per category, in the
      order the `elif` chain tests them. */
  const ErrorKeywords: seq<string> :=
    ["connection", "timeout", "permission", "access", "file not found", "no such file",
     "database", "sql", "api", "http"]

  const ErrorCategories: seq<string> :=
    ["connection_issues", "permission_issues", "file_issues", "database_issues", "api_issues"]

  /** The category of one error message, by the `elif` chain over the
      lower-cased message. */
  function ErrorCategory(message: string): (t: string)
    ensures t in ErrorCategories || t == "other_errors"
  {
    var m := Lower(message);
    if Contains(m, "connection") || Contains(m, "timeout") then "connection_issues"
    else if Contains(m, "permission") || Contains(m, "access") then "permission_issues"
    else if Contains(m, "file not found") || Contains(m, "no such file") then "file_issues"
    else if Contains(m, "database") || Contains(m, "sql") then "database_issues"
    else if Contains(m, "api") || Contains(m, "http") then "api_issues"
    else "other_errors"
  }

  /** The chain is a keyword priority list: the first of the ten keywords
      that occurs in the message decides, two keywords per category, and a
      message with none of them is `other_errors`. */
  lemma ErrorCategoryPriority(message: string)
    ensures var k := FirstContainedIndex(Lower(message), ErrorKeywords);
      ErrorCategory(message) == if k < |ErrorKeywords| then ErrorCategories[k / 2] else "other_errors"
    ensures ErrorCategory(message) == "other_errors" <==> !ContainsAny(Lower(message), ErrorKeywords)
  {
    var m := Lower(message);
    assert ErrorKeywords[0] == "connection" && ErrorKeywords[1] == "timeout";
    assert ErrorKeywords[2] == "permission" && ErrorKeywords[3] == "access";
    assert ErrorKeywords[4] == "file not found" && ErrorKeywords[5] == "no such file";
    assert ErrorKeywords[6] == "database" && ErrorKeywords[7] == "sql";
    assert ErrorKeywords[8] == "api" && ErrorKeywords[9] == "http";
    FirstContainedAny(m, ErrorKeywords);
  }

  /** The category of each error log, in order. */
  function CategoriesOf(logs: seq<Entry>): (r: seq<string>)
    ensures |r| == |logs| && forall i :: 0 <= i < |logs| ==> r[i] == ErrorCategory(logs[i].message)
  {
    seq(|logs|, i requires 0 <= i < |logs| => ErrorCategory(logs[i].message))
  }

  /** One more log adds its category to the tally. */
  lemma CategoriesStep(logs: seq<Entry>, i: nat)
    requires i < |logs|
    ensures TallyOf(CategoriesOf(logs[..i + 1])) == Bump(TallyOf(CategoriesOf(logs[..i])), ErrorCategory(logs[i].message))
  {
    var a, b := CategoriesOf(logs[..i + 1]), CategoriesOf(logs[..i]);
    assert a[..i] == b;
  }

  /** What `_analyze_common_errors` answers: the categories with their
      counts, largest first, ties in first-seen order. */
  function CommonErrors(logs: seq<Entry>): seq<(string, nat)> {
    if logs == [] then []
    else
      TallySpec(CategoriesOf(logs));
      MostCommon(TallyOf(CategoriesOf(logs)))
  }

  /** Every category that occurs is listed once with the number of its
      logs, the list is in non-increasing count order, the counts add up to
      the number of logs, and no logs give an empty list. */
  lemma CommonErrorsSpec(logs: seq<Entry>)
    ensures var r := CommonErrors(logs);
      && (forall i :: 0 < i < |r| ==> r[i - 1].1 >= r[i].1)
      && SumCounts(r) == |logs|
      && (forall p :: p in r ==> p.0 in CategoriesOf(logs) && p.1 == Occurrences(CategoriesOf(logs), p.0))
      && (forall i :: 0 <= i < |logs| ==>
            (ErrorCategory(logs[i].message), Occurrences(CategoriesOf(logs), ErrorCategory(logs[i].message))) in r)
      && (r == [] <==> logs == [])
  {
    if logs != [] {
      MostCommonSpec(CategoriesOf(logs));
      var i := 0;
      assert CategoriesOf(logs)[i] in CategoriesOf(logs);
    }
  }

  lemma CommonErrorsTally(logs: seq<Entry>)
    requires logs != []
    ensures forall k :: k in TallyOf(CategoriesOf(logs)).order ==> k in TallyOf(CategoriesOf(logs)).count
    ensures CommonErrors(logs) == MostCommon(TallyOf(CategoriesOf(logs)))
  {
    TallySpec(CategoriesOf(logs));
  }

  /** `_analyze_common_errors`: count the category of each log in a dict,
      then sort the dict's items by count, largest first. */
  method AnalyzeCommonErrors(errorLogs: seq<Entry>) returns (r: seq<(string, nat)>)
    ensures r == CommonErrors(errorLogs)
  {
    if errorLogs == [] {
      return [];
    }
    var order: seq<string> := [];
    var count: map<string, nat> := map[];
    for i := 0 to |errorLogs|
      invariant Counter(order, count) == TallyOf(CategoriesOf(errorLogs[..i]))
    {
      var errorType := ErrorCategory(errorLogs[i].message);
      order, count := Increment(order, count, errorType);
      CategoriesStep(errorLogs, i);
    }
    assert errorLogs[..|errorLogs|] == errorLogs;
    CommonErrorsTally(errorLogs);
    r := MostCommon(Counter(order, count));
  }

  // ---------------------------------------------------------------- host logs

  /** The run-related words of `log=lastrun`. */
  const RunWords: seq<string> := ["started", "completed", "finished", "run", "execution"]

  predicate RunRelated(e: Entry) {
    ContainsAny(Lower(e.message), RunWords)
  }

  /** `/logger/host=<host>`: `lastrun` filters the plain query to
      run-related messages, `errors` queries the ERROR level, and every other
      `log=` value answers the plain query. */
  function HostLogs(db: ListDb, host: string, app: string, comp: string, logType: string, limit: int): seq<Entry> {
    if logType == "lastrun" then Filter(GetLogsFrom(db, host, app, comp, "all", limit, 0), RunRelated)
    else if logType == "errors" then GetLogsFrom(db, host, app, comp, "ERROR", limit, 0)
    else GetLogsFrom(db, host, app, comp, "all", limit, 0)
  }

  /** With a positive limit, each `log=` value answers from the first
      `limit` entries of the list: all of them by default, the run-related
      ones for `lastrun`, and those at level ERROR for `errors`. */
  lemma HostLogsDispatch(db: ListDb, host: string, app: string, comp: string, logType: string, limit: int)
    requires limit >= 1
    ensures var r, w := HostLogs(db, host, app, comp, logType, limit), Window(ListAt(db, LogsKey(host, app, comp)), 0, limit);
      && |r| <= limit
      && (forall e :: e in r ==> e in w)
      && (logType == "lastrun" ==> forall e :: e in w ==> (e in r <==> RunRelated(e)))
      && (logType == "errors" ==> forall e :: e in w ==> (e in r <==> Upper(e.level) == "ERROR"))
      && (logType != "lastrun" && logType != "errors" ==> r == w)
  {
    GetLogsWindow(db, host, app, comp, "all", limit, 0);
    GetLogsWindow(db, host, app, comp, "ERROR", limit, 0);
    assert Upper("ERROR") == "ERROR";
  }

  // ---------------------------------------------------------------- troubleshoot

  datatype Analysis = Analysis(totalLogs: nat, errorCount: nat, lastActivity: string,
                               commonErrors: seq<(string, nat)>, status: string)

  datatype Troubleshooting = Troubleshooting(analysis: Analysis, recentLogs: seq<Entry>, errorLogs: seq<Entry>)

  /** `/logger/troubleshoot/<host>/<application>`: the latest 100 logs and
      the ERROR entries among the latest 20, summarised. */
  function Troubleshoot(db: ListDb, host: string, app: string, comp: string): Troubleshooting {
    var recent := GetLogsFrom(db, host, app, comp, "all", 100, 0);
    var errors := GetLogsFrom(db, host, app, comp, "ERROR", 20, 0);
    var analysis := Analysis(|recent|, |errors|,
                             if recent != [] then recent[0].timestamp else "No recent activity",
                             CommonErrors(errors),
                             if |errors| == 0 then "healthy" else "issues_detected");
    Troubleshooting(analysis, PyTake(recent, 10), PyTake(errors, 5))
  }

  /** The status is `healthy` exactly when no ERROR log was found; at most
      10 recent and 5 error logs are returned, the error logs are all at
      level ERROR, the categorised errors add up to the error count, and the
      last activity is the newest log's timestamp. */
  lemma TroubleshootSpec(db: ListDb, host: string, app: string, comp: string)
    ensures var r := Troubleshoot(db, host, app, comp);
      && (r.analysis.status == "healthy" <==> r.analysis.errorCount == 0)
      && r.analysis.totalLogs <= 100 && r.analysis.errorCount <= 20
      && |r.recentLogs| <= 10 && |r.errorLogs| <= 5
      && (forall e :: e in r.errorLogs ==> Upper(e.level) == "ERROR")
      && SumCounts(r.analysis.commonErrors) == r.analysis.errorCount
      && (r.analysis.totalLogs == 0 <==> r.analysis.lastActivity == "No recent activity" && r.recentLogs == [])
  {
    var recent := GetLogsFrom(db, host, app, comp, "all", 100, 0);
    var errors := GetLogsFrom(db, host, app, comp, "ERROR", 20, 0);
    GetLogsWindow(db, host, app, comp, "all", 100, 0);
    ErrorLogsFetched(db, host, app, comp, 20);
    CommonErrorsSpec(errors);
    PyTakePrefix(recent, 10);
    PyTakePrefix(errors, 5);
  }

  /** The ERROR read answers at most `limit` logs, each at level ERROR. */
  lemma ErrorLogsFetched(db: ListDb, host: string, app: string, comp: string, limit: int)
    requires limit >= 1
    ensures var r := GetLogsFrom(db, host, app, comp, "ERROR", limit, 0);
      |r| <= limit && forall e :: e in r ==> Upper(e.level) == "ERROR"
  {
    GetLogsWindow(db, host, app, comp, "ERROR", limit, 0);
    assert Upper("ERROR") == "ERROR";
  }

  // ---------------------------------------------------------------- components

  /** What the component loop reads from one log: its own component field,
      whether its level is exactly `ERROR`, and its timestamp. */
  function ComponentSeen(logs: seq<Entry>): (r: seq<Seen>)
    ensures |r| == |logs|
    ensures forall i :: 0 <= i < |logs| ==>
      r[i] == Seen(logs[i].component, logs[i].level == "ERROR", logs[i].timestamp)
  {
    seq(|logs|, i requires 0 <= i < |logs| => Seen(logs[i].component, logs[i].level == "ERROR", logs[i].timestamp))
  }

  /** `/logger/components/<host>/<application>`: the latest 200 logs of the
      application, tallied by their component field. */
  method ListComponents(db: ListDb, host: string, app: string)
    returns (components: set<string>, order: seq<string>, stats: map<string, Stats>)
    ensures Table(order, stats) == TableOf(ComponentSeen(GetLogsFrom(db, host, app, "all", "all", 200, 0)))
    ensures components == stats.Keys
  {
    var logs := GetLogsFrom(db, host, app, "all", "all", 200, 0);
    order, stats := Collect(ComponentSeen(logs));
    TableKeys(ComponentSeen(logs));
    components := set k | k in order;
  }

  /** Every listed component comes from some log, each counts its logs and
      its ERROR logs, and the counts add up to the number of logs read. */
  lemma ListComponentsSpec(db: ListDb, host: string, app: string)
    ensures var logs := GetLogsFrom(db, host, app, "all", "all", 200, 0);
      var t := TableOf(ComponentSeen(logs));
      && |logs| <= 200
      && (forall k :: k in t.stats <==> exists i :: 0 <= i < |logs| && logs[i].component == k)
      && (forall k :: k in t.order ==> k in t.stats)
      && SumCounts(LogCounts(t)) == |logs|
      && (forall k :: k in t.stats ==> t.stats[k].errorCount <= t.stats[k].logCount)
      && (forall k :: k in t.stats ==>
            && t.stats[k].logCount == Occurrences(Components(ComponentSeen(logs)), k)
            && t.stats[k].errorCount == ErrorsOf(ComponentSeen(logs), k)
            && t.stats[k].lastActivity == Some(FirstStamp(ComponentSeen(logs), k)))
  {
    var logs := GetLogsFrom(db, host, app, "all", "all", 200, 0);
    GetLogsWindow(db, host, app, "all", "all", 200, 0);
    var seen := ComponentSeen(logs);
    TableKeys(seen);
    TableCounts(seen);
    TableTotal(seen);
    TableSpec(seen);
  }
}
