/** The stand-alone MVP API, which reads the log files directly instead of
    Redis: the tail of each host file, the filter chain of
    `/logger/host=<host>`, the troubleshooting summary and the component
    classification of `/logger/components/<host>/<application>`. The files
    found under the host's directory (in the order the directory walk yields
    them) and the clock reading are parameters. */
module TestApi {
  import opened Wrappers
  import opened Text
  import opened PySeq
  import opened Tally
  import opened ComponentStats
  import FileMonitor
  import LogServer

  /** One log record as the MVP API builds it. */
  datatype Log = Log(timestamp: string, host: string, application: string, component: string,
                     level: string, message: string, filePath: string)

  /** A `.log` file under the host directory: its path and its text. */
  datatype LogFile = LogFile(path: string, content: string)

  // ---------------------------------------------------------------- reading

  /** The record made for one stripped line. */
  function LineLog(host: string, path: string, message: string, now: string): Log {
    Log(now, host, "unknown", "general", "INFO", message, path)
  }

  /** The records of the lines that are not blank once stripped, in order. */
  function LineLogs(host: string, path: string, lines: seq<string>, now: string): seq<Log> {
    if lines == [] then []
    else
      var m := Strip(lines[|lines| - 1]);
      LineLogs(host, path, lines[..|lines| - 1], now) + (if m != "" then [LineLog(host, path, m, now)] else [])
  }

  /** What one file contributes: its last `limit` lines (`lines[-limit:]`). */
  function FileLogs(host: string, f: LogFile, limit: int, now: string): seq<Log> {
    LineLogs(host, f.path, PyDrop(FileMonitor.ReadLines(f.content), -limit), now)
  }

  /** Every file's contribution, in the order of the files. */
  function Collected(host: string, files: seq<LogFile>, limit: int, now: string): seq<Log> {
    if files == [] then []
    else Collected(host, files[..|files| - 1], limit, now) + FileLogs(host, files[|files| - 1], limit, now)
  }

  /** `read_recent_logs`: the last `limit` records collected (`logs[-limit:]`). */
  function RecentLogs(host: string, files: seq<LogFile>, limit: int, now: string): seq<Log> {
    PyDrop(Collected(host, files, limit, now), -limit)
  }

  /** A record of host `host` built from a non-blank stripped line of `lines`. */
  predicate FromLines(l: Log, host: string, lines: seq<string>, now: string) {
    && l.host == host && l.application == "unknown" && l.component == "general" && l.level == "INFO"
    && l.timestamp == now && l.message != ""
    && exists j :: 0 <= j < |lines| && l.message == Strip(lines[j])
  }

  /** Each record comes from its own line, stripped and not blank, with the
      fixed application, component and level; there are no more records
      than lines. */
  lemma {:induction false} LineLogsSpec(host: string, path: string, lines: seq<string>, now: string)
    ensures var r := LineLogs(host, path, lines, now);
      && |r| <= |lines|
      && forall i :: 0 <= i < |r| ==> r[i].filePath == path && FromLines(r[i], host, lines, now)
  {
    if lines != [] {
      var p := lines[..|lines| - 1];
      LineLogsSpec(host, path, p, now);
      var r, q := LineLogs(host, path, lines, now), LineLogs(host, path, p, now);
      forall i | 0 <= i < |r| ensures r[i].filePath == path && FromLines(r[i], host, lines, now) {
        if i < |q| {
          var j :| 0 <= j < |p| && q[i].message == Strip(p[j]);
          assert lines[j] == p[j];
        } else {
          assert r[i].message == Strip(lines[|lines| - 1]);
        }
      }
    }
  }

  /** A blank line adds nothing, and a non-blank one adds one record. */
  lemma LineLogsStep(host: string, path: string, lines: seq<string>, j: nat, now: string)
    requires j < |lines|
    ensures LineLogs(host, path, lines[..j + 1], now) ==
      LineLogs(host, path, lines[..j], now) + (if Strip(lines[j]) != "" then [LineLog(host, path, Strip(lines[j]), now)] else [])
  {
    assert lines[..j + 1][..j] == lines[..j];
  }

  /** With a positive limit a file contributes at most `limit` records, taken
      from its last `limit` lines. */
  lemma FileLogsBound(host: string, f: LogFile, limit: int, now: string)
    requires limit >= 1
    ensures |FileLogs(host, f, limit, now)| <= limit
  {
    var lines := FileMonitor.ReadLines(f.content);
    PyDropNegative(lines, limit);
    LineLogsSpec(host, f.path, PyDrop(lines, -limit), now);
  }

  /** Every collected record belongs to the host and carries a non-blank message. */
  lemma {:induction false} CollectedShape(host: string, files: seq<LogFile>, limit: int, now: string)
    ensures forall l :: l in Collected(host, files, limit, now) ==>
      l.host == host && l.message != "" && l.component == "general" && l.level == "INFO" && l.timestamp == now
  {
    if files != [] {
      CollectedShape(host, files[..|files| - 1], limit, now);
      var f := files[|files| - 1];
      LineLogsSpec(host, f.path, PyDrop(FileMonitor.ReadLines(f.content), -limit), now);
    }
  }

  /** `read_recent_logs` answers at most `limit` records for a positive
      limit: the newest ones collected, each a non-blank line of the host.
      A limit of 0 makes both slices `[-0:]`, which keep everything. */
  lemma RecentLogsSpec(host: string, files: seq<LogFile>, limit: int, now: string)
    ensures var c, r := Collected(host, files, limit, now), RecentLogs(host, files, limit, now);
      && (limit >= 1 ==> |r| <= limit && r == c[|c| - |r|..])
      && (limit == 0 ==> r == c)
      && forall l :: l in r ==> l.host == host && l.message != "" && l.component == "general" && l.timestamp == now
  {
    var c := Collected(host, files, limit, now);
    var r := RecentLogs(host, files, limit, now);
    assert forall l :: l in r ==> l.host == host && l.message != "" && l.component == "general" && l.timestamp == now by {
      CollectedShape(host, files, limit, now);
      PyDropSuffix(c, -limit);
    }
    if limit >= 0 {
      PyDropNegative(c, limit);
    }
  }

  /** The lines of one file, appended record by record. */
  method ReadFile(host: string, f: LogFile, limit: int, now: string, logs: seq<Log>) returns (logs': seq<Log>)
    ensures logs' == logs + FileLogs(host, f, limit, now)
  {
    var tail := PyDrop(FileMonitor.ReadLines(f.content), -limit);
    logs' := logs;
    for j := 0 to |tail|
      invariant logs' == logs + LineLogs(host, f.path, tail[..j], now)
    {
      var line := Strip(tail[j]);
      LineLogsStep(host, f.path, tail, j, now);
      ghost var added := if line != "" then [LineLog(host, f.path, line, now)] else [];
      FileMonitor.Assoc(logs, LineLogs(host, f.path, tail[..j], now), added);
      if line != "" {
        logs' := logs' + [LineLog(host, f.path, line, now)];
      } else {
        assert logs' + added == logs';
      }
    }
    assert tail[..|tail|] == tail;
  }

  /** The loop over the files, one file further. */
  lemma CollectedStep(host: string, files: seq<LogFile>, i: nat, limit: int, now: string)
    requires i < |files|
    ensures Collected(host, files[..i + 1], limit, now) == Collected(host, files[..i], limit, now) + FileLogs(host, files[i], limit, now)
  {
    assert files[..i + 1][..i] == files[..i];
  }

  /** `read_recent_logs`. */
  method ReadRecentLogs(host: string, files: seq<LogFile>, limit: int, now: string) returns (logs: seq<Log>)
    ensures logs == RecentLogs(host, files, limit, now)
  {
    logs := [];
    for i := 0 to |files|
      invariant logs == Collected(host, files[..i], limit, now)
    {
      CollectedStep(host, files, i, limit, now);
      logs := ReadFile(host, files[i], limit, now, logs);
    }
    assert files[..|files|] == files;
    logs := PyDrop(logs, -limit);
  }

  // ---------------------------------------------------------------- filters

  /** `value.lower() in log['message'].lower()`. */
  function Mentions(value: string): Log -> bool {
    (l: Log) => Contains(Lower(l.message), Lower(value))
  }

  /** `any(keyword in log['message'].lower() for keyword in words)`. */
  function HasWord(words: seq<string>): Log -> bool {
    (l: Log) => ContainsAny(Lower(l.message), words)
  }

  const ErrorWords: seq<string> := ["error", "exception", "failed", "critical"]

  /** The filters of `/logger/host=<host>`, in order. */
  function FilterChain(logs: seq<Log>, app: string, comp: string, logType: string): seq<Log> {
    var a := if app != "all" then Filter(logs, Mentions(app)) else logs;
    var b := if comp != "all" then Filter(a, Mentions(comp)) else a;
    if logType == "errors" then Filter(b, HasWord(ErrorWords))
    else if logType == "lastrun" then Filter(b, HasWord(LogServer.RunWords))
    else b
  }

  /** What the filter chain asks of one record. */
  predicate Keeps(l: Log, app: string, comp: string, logType: string) {
    && (app != "all" ==> Mentions(app)(l))
    && (comp != "all" ==> Mentions(comp)(l))
    && (logType == "errors" ==> HasWord(ErrorWords)(l))
    && (logType == "lastrun" ==> HasWord(LogServer.RunWords)(l))
  }

  /** The application and component filters keep exactly the records that
      mention what was asked for. */
  lemma MentionFilters(logs: seq<Log>, app: string, comp: string)
    ensures var a := if app != "all" then Filter(logs, Mentions(app)) else logs;
      var b := if comp != "all" then Filter(a, Mentions(comp)) else a;
      && |b| <= |logs|
      && (forall x :: x in b ==> x in logs && (app != "all" ==> Mentions(app)(x)) && (comp != "all" ==> Mentions(comp)(x)))
      && (forall x :: x in logs && (app != "all" ==> Mentions(app)(x)) && (comp != "all" ==> Mentions(comp)(x)) ==> x in b)
  {
    var a := if app != "all" then Filter(logs, Mentions(app)) else logs;
    assert forall x :: x in a ==> x in logs && (app != "all" ==> Mentions(app)(x));
    assert forall x :: x in logs && (app != "all" ==> Mentions(app)(x)) ==> x in a;
  }

  /** The chain keeps exactly the records that pass every filter asked for:
      the application and the component each occur in the message ignoring
      case unless given as `all`, and `errors` and `lastrun` need one of their
      keywords. */
  lemma FilterChainSpec(logs: seq<Log>, app: string, comp: string, logType: string)
    ensures var r := FilterChain(logs, app, comp, logType);
      && |r| <= |logs|
      && (forall x :: x in r ==> x in logs && Keeps(x, app, comp, logType))
      && (forall x :: x in logs && Keeps(x, app, comp, logType) ==> x in r)
  {
    MentionFilters(logs, app, comp);
  }

  /** `/logger/host=<host>`: the recent records of the host, filtered. */
  function HostLogs(host: string, files: seq<LogFile>, app: string, comp: string, logType: string,
                    limit: int, now: string): seq<Log> {
    FilterChain(RecentLogs(host, files, limit, now), app, comp, logType)
  }

  // ---------------------------------------------------------------- troubleshoot

  datatype Analysis = Analysis(totalLogs: nat, errorCount: nat, lastActivity: string, status: string)

  datatype Troubleshooting = Troubleshooting(analysis: Analysis, recentLogs: seq<Log>, errorLogs: seq<Log>)

  /** `/logger/troubleshoot/<host>/<application>`: the 100 most recent
      records that mention the application (and the component unless `all`),
      and those among them with an error keyword. */
  function Troubleshoot(host: string, files: seq<LogFile>, app: string, comp: string, now: string): Troubleshooting {
    Diagnose(RecentLogs(host, files, 100, now), app, comp)
  }

  /** The analysis of the records read: those mentioning the application (and
      the component unless `all`), and those among them with an error keyword. */
  function Diagnose(recent: seq<Log>, app: string, comp: string): Troubleshooting {
    var appLogs := Filter(recent, Mentions(app));
    var compLogs := if comp != "all" then Filter(appLogs, Mentions(comp)) else appLogs;
    var errorLogs := Filter(compLogs, HasWord(ErrorWords));
    var analysis := Analysis(|compLogs|, |errorLogs|,
                             if compLogs != [] then compLogs[0].timestamp else "No recent activity",
                             if |errorLogs| == 0 then "healthy" else "issues_detected");
    Troubleshooting(analysis, PyTake(compLogs, 10), PyTake(errorLogs, 5))
  }

  /** The status is `healthy` exactly when no record has an error keyword;
      at most 10 recent and 5 error records are returned, all error records
      carry an error keyword, and at most 100 records are looked at. */
  lemma TroubleshootSpec(host: string, files: seq<LogFile>, app: string, comp: string, now: string)
    ensures var r := Troubleshoot(host, files, app, comp, now);
      && (r.analysis.status == "healthy" <==> r.analysis.errorCount == 0)
      && r.analysis.errorCount <= r.analysis.totalLogs <= 100
      && |r.recentLogs| <= 10 && |r.errorLogs| <= 5
      && (forall l :: l in r.errorLogs ==> HasWord(ErrorWords)(l) && Mentions(app)(l))
      && (r.analysis.totalLogs == 0 <==> r.analysis.lastActivity == "No recent activity" && r.recentLogs == [])
  {
    RecentLogsSpec(host, files, 100, now);
    DiagnoseSpec(RecentLogs(host, files, 100, now), app, comp);
  }

  /** The analysis counts at most the records read, finds errors only among
      the matching records, and reports no activity exactly when none match. */
  lemma DiagnoseSpec(recent: seq<Log>, app: string, comp: string)
    ensures var r := Diagnose(recent, app, comp);
      && (r.analysis.status == "healthy" <==> r.analysis.errorCount == 0)
      && r.analysis.errorCount <= r.analysis.totalLogs <= |recent|
      && |r.recentLogs| <= 10 && |r.errorLogs| <= 5
      && (forall l :: l in r.errorLogs ==> HasWord(ErrorWords)(l) && Mentions(app)(l))
      && (r.analysis.totalLogs == 0 <==> r.analysis.lastActivity == "No recent activity" && r.recentLogs == [])
  {
    var appLogs := Filter(recent, Mentions(app));
    var compLogs := if comp != "all" then Filter(appLogs, Mentions(comp)) else appLogs;
    var errorLogs := Filter(compLogs, HasWord(ErrorWords));
    PyTakePrefix(compLogs, 10);
    PyTakePrefix(errorLogs, 5);
    assert forall l :: l in compLogs ==> Mentions(app)(l);
  }

  // ---------------------------------------------------------------- components

  /** `component_patterns`, in the dict's order. */
  const ComponentPatterns: seq<(string, seq<string>)> := [
    ("list-creator", ["list.creator", "list_creator", "list creator"]),
    ("epg-processor", ["epg.processor", "epg_processor", "epg processor"]),
    ("channel-scanner", ["channel.scanner", "channel_scanner", "channel scanner"]),
    ("scheduler", ["scheduler", "cron", "schedule"]),
    ("api", ["api", "route", "endpoint", "flask"]),
    ("database", ["database", "db", "sql", "sqlite"])
  ]

  /** A pattern entry whose words include one occurring in `m`. */
  function PatternIn(m: string): ((string, seq<string>)) -> bool {
    (p: (string, seq<string>)) => ContainsAny(m, p.1)
  }

  /** The component a message is filed under: the first entry of the table
      with a pattern in the lower-cased message (`break` on the first hit),
      else `general`. */
  function ClassifyComponent(message: string): string {
    var k := FirstWhere(ComponentPatterns, PatternIn(Lower(message)));
    if k < |ComponentPatterns| then ComponentPatterns[k].0 else "general"
  }

  /** Entry `k` is the first of the table with a pattern occurring in `m`. */
  predicate FirstPatternAt(m: string, k: nat)
    requires k < |ComponentPatterns|
  {
    ContainsAny(m, ComponentPatterns[k].1) && forall j :: 0 <= j < k ==> !ContainsAny(m, ComponentPatterns[j].1)
  }

  /** A message is `general` exactly when no pattern of the table occurs in
      it; otherwise its component is the first entry, in table order, one of
      whose patterns occurs. */
  lemma ClassifySpec(message: string)
    ensures var m, c := Lower(message), ClassifyComponent(message);
      && (c == "general" <==> forall k :: 0 <= k < |ComponentPatterns| ==> !ContainsAny(m, ComponentPatterns[k].1))
      && (c != "general" ==> exists k :: 0 <= k < |ComponentPatterns| && FirstPatternAt(m, k) && c == ComponentPatterns[k].0)
  {
    var m := Lower(message);
    var k := FirstWhere(ComponentPatterns, PatternIn(m));
    assert forall j :: 0 <= j < |ComponentPatterns| ==> ComponentPatterns[j].0 != "general";
    if k < |ComponentPatterns| {
      assert PatternIn(m)(ComponentPatterns[k]);
    }
  }

  /** The keywords that count a record as an error of its component. */
  const ComponentErrorWords: seq<string> := ["error", "exception", "failed"]

  /** What the component loop reads from each record. */
  function ComponentSeen(logs: seq<Log>): (r: seq<Seen>)
    ensures |r| == |logs|
    ensures forall i :: 0 <= i < |logs| ==> r[i] == Seen(ClassifyComponent(logs[i].message),
      ContainsAny(Lower(logs[i].message), ComponentErrorWords), logs[i].timestamp)
  {
    seq(|logs|, i requires 0 <= i < |logs| =>
      Seen(ClassifyComponent(logs[i].message), ContainsAny(Lower(logs[i].message), ComponentErrorWords), logs[i].timestamp))
  }

  /** The records `list_components` classifies: the 200 most recent that
      mention the application. */
  function ApplicationLogs(host: string, files: seq<LogFile>, app: string, now: string): seq<Log> {
    Filter(RecentLogs(host, files, 200, now), Mentions(app))
  }

  /** `/logger/components/<host>/<application>`. */
  method ListComponents(host: string, files: seq<LogFile>, app: string, now: string)
    returns (components: set<string>, order: seq<string>, stats: map<string, Stats>)
    ensures Table(order, stats) == TableOf(ComponentSeen(ApplicationLogs(host, files, app, now)))
    ensures components == stats.Keys
  {
    var logs := ReadRecentLogs(host, files, 200, now);
    var appLogs := Filter(logs, Mentions(app));
    order, stats := Collect(ComponentSeen(appLogs));
    TableKeys(ComponentSeen(appLogs));
    components := set k | k in order;
  }

  /** Each component counts the records filed under it and its error records
      among them, every component comes from a record, and the log counts add
      up to the number of application records. */
  lemma ListComponentsSpec(host: string, files: seq<LogFile>, app: string, now: string)
    ensures var logs := ApplicationLogs(host, files, app, now);
      var seen := ComponentSeen(logs);
      var t := TableOf(seen);
      && |logs| <= 200
      && (forall k :: k in t.order ==> k in t.stats)
      && SumCounts(LogCounts(t)) == |logs|
      && (forall k :: k in t.stats <==> k in Components(seen))
      && (forall k :: k in t.stats ==>
            && t.stats[k].logCount == Occurrences(Components(seen), k)
            && t.stats[k].errorCount == ErrorsOf(seen, k)
            && t.stats[k].errorCount <= t.stats[k].logCount)
  {
    var seen := ComponentSeen(ApplicationLogs(host, files, app, now));
    RecentLogsSpec(host, files, 200, now);
    TableKeys(seen);
    TableCounts(seen);
    TableTotal(seen);
    TallySpec(Components(seen));
    TableSpec(seen);
  }

  /** Every record carries the clock reading, so a component's last activity
      is the timestamp of its first record. */
  lemma ListComponentsActivity(host: string, files: seq<LogFile>, app: string, now: string, k: string)
    requires now != ""
    requires k in Components(ComponentSeen(ApplicationLogs(host, files, app, now)))
    ensures var logs := ApplicationLogs(host, files, app, now);
      var seen := ComponentSeen(logs);
      && k in TableOf(seen).stats
      && TableOf(seen).stats[k].lastActivity == Some(logs[ListIndex(Components(seen), k)].timestamp)
  {
    var logs := ApplicationLogs(host, files, app, now);
    var seen := ComponentSeen(logs);
    RecentLogsSpec(host, files, 200, now);
    forall i | 0 <= i < |seen| ensures seen[i].timestamp != "" {
      assert logs[i] in RecentLogs(host, files, 200, now);
    }
    FirstLogStamp(seen, k);
  }
}
