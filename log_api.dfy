/** The brute-force file reader of the log API: relative time windows, the
    component/step tables, the per-line filter and metadata pipeline, the
    collection loop with its early stops, and the page caps of the host route. */
module LogApi {
  import opened Wrappers
  import opened Text
  import opened PySeq
  import opened Time
  import opened Sorting
  import opened Regex
  import opened Timestamps
  import opened ComponentTable
  import opened LineTags

  // ---------------------------------------------------------------------------
  // parse_time_filter
  // ---------------------------------------------------------------------------

  /** `(start_time, end_time)` as microsecond instants; a missing window is
      Python's `(None, None)`. `naive` marks bounds without a UTC offset,
      which only an ISO text without one produces: every other window is
      built from the zone-aware clock. */
  datatype Window = Window(start: int, end: int, naive: bool)

  /** `\s*(am|pm)` at position `j`: whether the meridiem found there is pm. A
      shorter run of spaces cannot help, since neither word starts with one. */
  function MeridiemAt(s: string, j: nat): (r: Option<bool>)
    ensures j > |s| ==> r.None?
    ensures j <= |s| ==> var k := j + SpaceRun(s[j..]);
      (r == Some(false) <==> OccursAt(s, "am", k)) && (r == Some(true) <==> OccursAt(s, "pm", k))
    ensures j < |s| && IsDigit(s[j]) ==> r.None?
  {
    if j > |s| then None
    else
      var k := j + SpaceRun(s[j..]);
      if OccursAt(s, "am", k) then Some(false)
      else if OccursAt(s, "pm", k) then Some(true)
      else None
  }

  /** `(\d{1,2})\s*(am|pm)` at position `i`: the hour as written and whether it
      is pm. Two digits are tried before one; when the second character is a
      digit the one-digit attempt fails, since the meridiem cannot start on a digit. */
  function AmPmAt(s: string, i: nat): (r: Option<(nat, bool)>)
    ensures r.Some? ==> r.value.0 < 100
    ensures r.Some? <==> (i < |s| && IsDigit(s[i])
      && (MeridiemAt(s, i + 1).Some? || (i + 1 < |s| && IsDigit(s[i + 1]) && MeridiemAt(s, i + 2).Some?)))
    ensures r.Some? && i + 1 < |s| && IsDigit(s[i + 1]) ==>
      r.value == (DigitValue(s[i]) * 10 + DigitValue(s[i + 1]), MeridiemAt(s, i + 2).value)
    ensures r.Some? && !(i + 1 < |s| && IsDigit(s[i + 1])) ==>
      r.value == (DigitValue(s[i]), MeridiemAt(s, i + 1).value)
  {
    if i < |s| && IsDigit(s[i]) then
      if i + 1 < |s| && IsDigit(s[i + 1]) && MeridiemAt(s, i + 2).Some? then
        Some((DigitValue(s[i]) * 10 + DigitValue(s[i + 1]), MeridiemAt(s, i + 2).value))
      else if MeridiemAt(s, i + 1).Some? then
        Some((DigitValue(s[i]), MeridiemAt(s, i + 1).value))
      else None
    else None
  }

  /** The 24-hour clock hour of `N am` / `N pm`: 12 is added for pm unless N is
      12, and 12 am is hour 0. Other values pass through, so 13 pm is 25. */
  function ClockHour(h: nat, pm: bool): (r: nat)
    ensures pm && 1 <= h <= 11 ==> r == h + 12
    ensures pm && h == 12 ==> r == 12
    ensures !pm && h == 12 ==> r == 0
    ensures !pm && h != 12 ==> r == h
    ensures 1 <= h <= 12 ==> r < 24 && (r < 12 <==> !pm)
  {
    if pm && h != 12 then h + 12 else if !pm && h == 12 then 0 else h
  }

  /** `(\d+)\s*minutes` at position `i`. The greedy digit run cannot give back
      a digit, since `\s*minutes` cannot start on one. */
  function MinutesAt(s: string, i: nat): (r: Option<nat>)
  {
    if i < |s| && IsDigit(s[i]) then
      var d := DigitRun(s[i..]);
      var j := i + |d|;
      var k := j + SpaceRun(s[j..]);
      if OccursAt(s, "minutes", k) then Some(ParseNat(d)) else None
    else None
  }

  predicate AroundForm(l: string) {
    Contains(l, "around") && (Contains(l, "am") || Contains(l, "pm"))
  }

  /** The `yesterday` / `today` branch for the day holding `day` (a microsecond
      instant): `around N am/pm` gives two hours from that hour, else the whole
      day. An hour `replace` rejects (24 or more) is the exception the
      function swallows. */
  function DayWindow(l: string, day: int): (w: Option<Window>)
    ensures w.Some? ==> w.value.start <= w.value.end && StartOfDay(w.value.start) == StartOfDay(day)
    ensures !AroundForm(l) ==>
      w.Some? && w.value.start % MicrosPerDay == 0 && w.value.start <= day <= w.value.end
      && w.value.end == w.value.start + MicrosPerDay - 1
    ensures AroundForm(l) ==>
      match Search(l, AmPmAt, 0)
      case None => w == None
      case Some(hm) =>
        (w.Some? <==> ClockHour(hm.0, hm.1) < 24)
        && (w.Some? ==> w.value.start == StartOfDay(day) + ClockHour(hm.0, hm.1) * MicrosPerHour
                        && w.value.end == w.value.start + 2 * MicrosPerHour)
  {
    if AroundForm(l) then
      match Search(l, AmPmAt, 0)
      case None => None
      case Some(hm) =>
        var h := ClockHour(hm.0, hm.1);
        if h < 24 then
          var start := AtHour(day, h);
          Some(Window(start, start + 2 * MicrosPerHour, false))
        else None
    else Some(Window(StartOfDay(day), EndOfDay(day), false))
  }

  lemma NatProduct(a: nat, b: nat)
    ensures a * b >= 0
  {
  }

  /** The `last N minutes` branch: the first `N minutes` in the text gives
      the N minutes up to `now`; without one there is no window. */
  function MinutesWindow(l: string, now: int): (w: Option<Window>)
    ensures w.Some? <==> Search<nat>(l, MinutesAt, 0).Some?
    ensures w.Some? ==> (w.value.end == now && w.value.start <= w.value.end
      && w.value.end - w.value.start == Search<nat>(l, MinutesAt, 0).value * MicrosPerMinute)
  {
    match Search<nat>(l, MinutesAt, 0)
    case None => None
    case Some(m) =>
      NatProduct(m, MicrosPerMinute);
      Some(Window(now - m * MicrosPerMinute, now, false))
  }

  /** `parse_time_filter` of the log API, with the clock and `fromisoformat`
      given by `clock`. The tests run in this order on the lower-cased text:
      yesterday, today, last…hour, last…minutes; then `T` in the text as given. */
  function ApiTimeFilter(s: string, clock: Clock): (w: Option<Window>)
    ensures s == "" ==> w == None
    ensures w.Some? ==> w.value.start <= w.value.end
  {
    if s == "" then None
    else
      var l := Lower(s);
      if Contains(l, "yesterday") || Contains(l, "today") then
        DayWindow(l, if Contains(l, "yesterday") then clock.now.micros - MicrosPerDay else clock.now.micros)
      else RecentOrIsoWindow(s, l, clock)
  }

  /** The tests after the day names: `last…hour`, `last…minutes`, then an
      ISO time when `s` holds a `T`; `l` is `s` lower-cased. */
  function RecentOrIsoWindow(s: string, l: string, clock: Clock): (w: Option<Window>)
    ensures w.Some? ==> w.value.start <= w.value.end
  {
    if Contains(l, "last") && Contains(l, "hour") then
      Some(Window(clock.now.micros - MicrosPerHour, clock.now.micros, false))
    else if Contains(l, "last") && Contains(l, "minutes") then MinutesWindow(l, clock.now.micros)
    else if 'T' in s then
      var iso := ReplaceAll(s, "Z", "+00:00");
      match clock.parse(FromIso, iso)
      case None => None
      case Some(t) => Some(Window(t.micros - 30 * MicrosPerMinute, t.micros + 30 * MicrosPerMinute, !IsoAware(iso)))
    else None
  }

  /** Whether `datetime.fromisoformat(t)` is zone-aware: an offset is written
      as `+HH:MM` or `-HH:MM` after the time, so after the `T`; the `-`s of
      the date come before it. */
  predicate IsoAware(t: string) {
    'T' in t && var k := IndexOf(t, 'T'); '+' in t[k..] || '-' in t[k..]
  }

  /** A date without a `T`, a `T` and a time: the datetime is aware exactly
      when the time holds an offset sign. */
  lemma IsoAwareOf(date: string, time: string)
    requires 'T' !in date
    ensures IsoAware(date + "T" + time) <==> '+' in time || '-' in time
  {
    var t := date + "T" + time;
    assert t[..|date|] == date;
    IndexOfUnique(t, 'T', |date|);
    assert t[|date|..] == "T" + time;
  }

  /** `2025-06-06T07:00:00` is naive, `2025-06-06T07:00:00-07:00` aware. */
  lemma IsoAwareExamples()
    ensures !IsoAware("2025-06-06" + "T" + "07:00:00")
    ensures IsoAware("2025-06-06" + "T" + ("07:00:00" + "-07:00"))
  {
    var date, time := "2025-06-06", "07:00:00";
    assert 'T' !in date by { PlainText(date); }
    assert '+' !in time && '-' !in time by { PlainText(time); }
    IsoAwareOf(date, time);
    IsoAwareOf(date, time + "-07:00");
    assert (time + "-07:00")[8] == '-';
  }

  /** Digits, `-` and `:` only. */
  lemma PlainText(s: string)
    requires forall k :: 0 <= k < |s| ==> IsDigit(s[k]) || s[k] == '-' || s[k] == ':'
    ensures 'T' !in s && '+' !in s
  {
  }

  /** `yesterday` is checked before `today`, and without an `around` time either
      gives its whole day: midnight to 23:59:59.999999, the day before now or
      the day of now. */
  lemma WholeDayWindows(s: string, clock: Clock)
    requires s != "" && !AroundForm(Lower(s))
    requires Contains(Lower(s), "yesterday") || Contains(Lower(s), "today")
    ensures var w := ApiTimeFilter(s, clock);
      w.Some? && w.value.start % MicrosPerDay == 0 && w.value.end == w.value.start + MicrosPerDay - 1
      && (Contains(Lower(s), "yesterday") ==> w.value.start <= clock.now.micros - MicrosPerDay < w.value.start + MicrosPerDay)
      && (!Contains(Lower(s), "yesterday") ==> w.value.start <= clock.now.micros <= w.value.end)
  {
    DayBranch(s, clock);
  }

  /** A text naming yesterday or today takes the day branch. */
  lemma DayBranch(s: string, clock: Clock)
    requires s != ""
    requires Contains(Lower(s), "yesterday") || Contains(Lower(s), "today")
    ensures ApiTimeFilter(s, clock) ==
      DayWindow(Lower(s), if Contains(Lower(s), "yesterday") then clock.now.micros - MicrosPerDay else clock.now.micros)
  {
    var l := Lower(s);
    var day := if Contains(l, "yesterday") then clock.now.micros - MicrosPerDay else clock.now.micros;
    assert ApiTimeFilter(s, clock) == DayWindow(l, day);
  }

  /** `around N am/pm` on yesterday or today: two hours from the converted hour
      of that day, or no window when the hour is 24 or more (13 pm, 99 am) or
      no `N am`/`N pm` is found. */
  lemma AroundWindows(s: string, clock: Clock)
    requires s != "" && AroundForm(Lower(s))
    requires Contains(Lower(s), "yesterday") || Contains(Lower(s), "today")
    ensures var w := ApiTimeFilter(s, clock);
      var day := if Contains(Lower(s), "yesterday") then clock.now.micros - MicrosPerDay else clock.now.micros;
      match Search(Lower(s), AmPmAt, 0)
      case None => w == None
      case Some(hm) =>
        (w.Some? <==> ClockHour(hm.0, hm.1) < 24)
        && (w.Some? ==> w.value.start == StartOfDay(day) + ClockHour(hm.0, hm.1) * MicrosPerHour
                        && w.value.end == w.value.start + 2 * MicrosPerHour)
  {
    DayBranch(s, clock);
  }

  /** `last … hour` is the hour up to now, whatever number it names. */
  lemma LastHourWindow(s: string, clock: Clock)
    requires s != "" && !Contains(Lower(s), "yesterday") && !Contains(Lower(s), "today")
    requires Contains(Lower(s), "last") && Contains(Lower(s), "hour")
    ensures ApiTimeFilter(s, clock) == Some(Window(clock.now.micros - MicrosPerHour, clock.now.micros, false))
  {
  }

  /** `last N minutes` is the N minutes up to now, and there is no window when
      no `N minutes` is found. */
  lemma LastMinutesWindow(s: string, clock: Clock)
    requires s != "" && !Contains(Lower(s), "yesterday") && !Contains(Lower(s), "today")
    requires Contains(Lower(s), "last") && !Contains(Lower(s), "hour") && Contains(Lower(s), "minutes")
    ensures ApiTimeFilter(s, clock) == MinutesWindow(Lower(s), clock.now.micros)
  {
  }

  /** Any other text gives a window only if it holds a `T` and parses, and
      then it is the hour centred on the parsed instant. */
  lemma OtherWindows(s: string, clock: Clock)
    requires s != "" && !Contains(Lower(s), "yesterday") && !Contains(Lower(s), "today")
    requires !(Contains(Lower(s), "last") && (Contains(Lower(s), "hour") || Contains(Lower(s), "minutes")))
    ensures var w := ApiTimeFilter(s, clock);
      w.Some? ==> ('T' in s && w.value.end - w.value.start == 60 * MicrosPerMinute
        && w.value.start + 30 * MicrosPerMinute == clock.parse(FromIso, ReplaceAll(s, "Z", "+00:00")).value.micros
        && (w.value.naive <==> !IsoAware(ReplaceAll(s, "Z", "+00:00"))))
    ensures 'T' !in s ==> ApiTimeFilter(s, clock) == None
  {
  }

  // ---------------------------------------------------------------------------
  // read_logs_with_filters: one line
  // ---------------------------------------------------------------------------

  /** The outside world one read sees: the clock and date parsers, and the
      regex engine for the caller's `pattern` (`re.search(pattern, line,
      re.IGNORECASE)`), which gives `None` when the pattern does not compile. */
  datatype Env = Env(clock: Clock, regex: (string, string) -> Option<bool>)

  /** The filter arguments; `start`/`end` are the time window's bounds and
      `naive` says they carry no UTC offset. */
  datatype Filters = Filters(
    application: Option<string>, component: Option<string>, step: Option<string>,
    start: Option<int>, end: Option<int>,
    search: Option<string>, pattern: Option<string>, levels: Option<string>, refreshId: Option<string>,
    naive: bool)

  /** The metadata read from a line's text (the float `duration_seconds` is not
      part of this model). */
  datatype Metadata = Metadata(stepNumber: Option<nat>, refreshId: Option<string>, stepStatus: Option<string>)

  /** One returned log. */
  datatype LogEntry = LogEntry(
    time: Instant, host: string, application: string, component: string, step: Option<string>,
    level: string, message: string, filePath: string, metadata: Metadata)

  const ErrorWords: seq<string> := ["error", "exception", "failed", "critical"]
  const WarningWords: seq<string> := ["warn", "warning"]
  const DebugWords: seq<string> := ["debug", "trace"]

  /** The level given to a line: the first keyword group found in the
      lower-cased line decides, in the order ERROR, WARNING, DEBUG; else INFO. */
  function ApiLevel(line: string): (level: string)
    ensures level in {"ERROR", "WARNING", "DEBUG", "INFO"}
  {
    var l := Lower(line);
    if ContainsAny(l, ErrorWords) then "ERROR"
    else if ContainsAny(l, WarningWords) then "WARNING"
    else if ContainsAny(l, DebugWords) then "DEBUG"
    else "INFO"
  }

  /** The level priority: an error keyword wins over every other, a warning
      keyword over the debug ones, and a line with none of the keywords is INFO. */
  lemma ApiLevelPriority(line: string)
    ensures Contains(Lower(line), "failed") ==> ApiLevel(line) == "ERROR"
    ensures ApiLevel(line) == "ERROR" <==> exists w :: w in ErrorWords && Contains(Lower(line), w)
    ensures ApiLevel(line) == "WARNING" <==>
      (forall w :: w in ErrorWords ==> !Contains(Lower(line), w)) && Contains(Lower(line), "warn")
    ensures ApiLevel(line) == "DEBUG" <==>
      (forall w :: w in ErrorWords + WarningWords ==> !Contains(Lower(line), w))
      && (Contains(Lower(line), "debug") || Contains(Lower(line), "trace"))
  {
    var l := Lower(line);
    assert ErrorWords[2] == "failed";
    assert DebugWords[0] == "debug" && DebugWords[1] == "trace";
    if Contains(l, "warning") {
      var i :| 0 <= i <= |l| - 7 && OccursAt(l, "warning", i);
      assert l[i..i + 4] == l[i..i + 7][..4];
      ContainsAt(l, "warn", i);
    }
    assert WarningWords[0] == "warn";
    assert ContainsAny(l, WarningWords) <==> Contains(l, "warn");
    assert ContainsAny(l, DebugWords) <==> Contains(l, "debug") || Contains(l, "trace");
    assert (forall w :: w in ErrorWords + WarningWords ==> !Contains(l, w))
      <==> !ContainsAny(l, ErrorWords) && !ContainsAny(l, WarningWords);
  }

  /** The seven markers of a sports-scheduler line. */
  predicate SchedulerMarked(line: string) {
    var l := Lower(line);
    Contains(line, "sports_scheduler.") || Contains(l, "sports-scheduler") || Contains(l, "iptv")
    || Contains(l, "orchestrator") || Contains(line, "Step") || Contains(line, "[Refresh-")
    || Contains(l, "refresh workflow")
  }

  /** The four markers of an auto-scraper line. */
  predicate ScraperMarked(line: string) {
    var l := Lower(line);
    Contains(line, "auto_scraper.") || Contains(l, "auto-scraper") || Contains(l, "scraper")
    || Contains(l, "list creator")
  }

  /** Which application a line belongs to when no application filter is given. */
  function DetectApplication(line: string): (app: string)
    ensures app in {"sports-scheduler", "auto-scraper", "nginx", "gunicorn", "unknown"}
    ensures Contains(line, "[Refresh-") || Contains(Lower(line), "iptv") ==> app == "sports-scheduler"
    ensures app == "auto-scraper" ==> !Contains(line, "Step") && !Contains(Lower(line), "orchestrator")
    ensures app == "nginx" ==> Contains(Lower(line), "nginx") && !Contains(Lower(line), "scraper")
    ensures app == "gunicorn" ==> Contains(Lower(line), "gunicorn") && !Contains(Lower(line), "nginx")
    ensures app == "unknown" ==>
      (!Contains(Lower(line), "nginx") && !Contains(Lower(line), "gunicorn")
       && !Contains(Lower(line), "scraper") && !Contains(Lower(line), "iptv"))
    ensures app == "sports-scheduler" <==> SchedulerMarked(line)
    ensures app == "auto-scraper" <==> !SchedulerMarked(line) && ScraperMarked(line)
    ensures app == "nginx" <==> !SchedulerMarked(line) && !ScraperMarked(line) && Contains(Lower(line), "nginx")
    ensures app == "gunicorn" <==> (!SchedulerMarked(line) && !ScraperMarked(line)
      && !Contains(Lower(line), "nginx") && Contains(Lower(line), "gunicorn"))
    ensures app == "unknown" <==> (!SchedulerMarked(line) && !ScraperMarked(line)
      && !Contains(Lower(line), "nginx") && !Contains(Lower(line), "gunicorn"))
  {
    var l := Lower(line);
    if SchedulerMarked(line) then "sports-scheduler"
    else if ScraperMarked(line) then "auto-scraper"
    else if Contains(l, "nginx") then "nginx"
    else if Contains(l, "gunicorn") then "gunicorn"
    else "unknown"
  }

  /** `app_filter`: the lower-cased application, unless it is absent, empty or `all`. */
  function AppFilter(application: Option<string>): Option<string> {
    if Truthy(application) && application.value != "all" then Some(Lower(application.value)) else None
  }

  /** The application filter `a` (already lower-cased) matches a line that
      mentions it in any case, or mentions it with `_` for `-` as written. */
  predicate AppMatches(a: string, line: string) {
    Contains(Lower(line), Lower(a)) || Contains(line, ReplaceChar(a, '-', '_'))
  }

  /** The application a line is read as: the filtered application when the
      line mentions it (else the line is skipped), or the detected one. */
  function ApplicationOf(appFilter: Option<string>, line: string): (app: Option<string>)
    ensures appFilter.None? ==> app == Some(DetectApplication(line))
    ensures appFilter.Some? ==> (app.Some? <==> AppMatches(appFilter.value, line))
    ensures app.Some? ==> app.value == appFilter.GetOr(DetectApplication(line))
  {
    match appFilter
    case Some(a) => if AppMatches(a, line) then Some(a) else None
    case None => Some(DetectApplication(line))
  }

  /** The level filter's list: comma-separated, each item stripped and upper-cased. */
  function AllowedLevels(levelFilter: string): seq<string> {
    var parts := Split(levelFilter, ',');
    seq(|parts|, k requires 0 <= k < |parts| => Upper(Strip(parts[k])))
  }

  /** The refresh filter: the line holds `[id]`, or `[Refresh-n]` where `n` is
      the id with every `Refresh-` removed. */
  predicate RefreshMatches(id: string, line: string) {
    Contains(line, "[" + id + "]") || Contains(line, "[Refresh-" + ReplaceAll(id, "Refresh-", "") + "]")
  }

  /** What `step\s*\d+/8:` (case ignored) finds at position `i`: the step digits
      when `/8:` follows them. */
  function StepOf8At(s: string, i: nat): (r: Option<string>)
  {
    match StepAt(s, i)
    case None => None
    case Some(d) =>
      if OccursAt(s, "/8:", i + 4 + SpaceRun(s[i + 4..]) + |d|) then Some(d) else None
  }

  /** The step status a line announces. The last test looks for the literal
      text `starting.*workflow`, as the line is searched with `in`. */
  function StepStatus(line: string): Option<string> {
    var l := Lower(line);
    if Contains(l, "completed successfully") then Some("completed")
    else if Contains(l, "failed") then Some("failed")
    else if Search(line, StepOf8At, 0).Some? && !Contains(l, "completed") then Some("started")
    else if Contains(l, "starting.*workflow") then Some("workflow_started")
    else None
  }

  /** `starting.*workflow` as a regular expression. */
  const StartingWorkflow: Pattern := [Word("starting"), AnyStar, Word("workflow")]

  /** The step status with its last test searching for `starting.*workflow`
      as a pattern, which the pattern's text evidently intends. It differs
      from the literal test only by finding `workflow_started` where the
      literal test finds nothing. */
  function IntendedStepStatus(line: string): (r: Option<string>)
    ensures r != StepStatus(line) ==> StepStatus(line).None? && r == Some("workflow_started")
    ensures StepStatus(line).None? ==> (r == Some("workflow_started") <==> SearchIn(StartingWorkflow, Lower(line)))
  {
    var l := Lower(line);
    if Contains(l, "completed successfully") then Some("completed")
    else if Contains(l, "failed") then Some("failed")
    else if Search(line, StepOf8At, 0).Some? && !Contains(l, "completed") then Some("started")
    else if SearchIn(StartingWorkflow, l) then Some("workflow_started")
    else
      LiteralMatchesPattern(l);
      None
  }

  /** The literal text `starting.*workflow` is itself matched by the pattern:
      `.*` spans the two characters `.*`. */
  lemma LiteralMatchesPattern(l: string)
    ensures Contains(l, "starting.*workflow") ==> SearchIn(StartingWorkflow, l)
  {
    if Contains(l, "starting.*workflow") {
      var i :| 0 <= i <= |l| - 18 && OccursAt(l, "starting.*workflow", i);
      var s := l[i..];
      assert s[..18] == "starting.*workflow";
      LiteralPrefixMatches(s);
    }
  }

  lemma LiteralPrefixMatches(s: string)
    requires |s| >= 18 && s[..18] == "starting.*workflow"
    ensures MatchPrefix(StartingWorkflow, s)
  {
    var lit := "starting.*workflow";
    assert s[..8] == lit[..8];
    var u := s[10..];
    assert u[..8] == lit[10..];
    assert [Word("workflow")][1..] == [];
    assert MatchPrefix([Word("workflow")], u);
    assert s[8] == lit[8] && s[9] == lit[9];
    assert s[8..][2..] == u;
    AnyStarSkips([Word("workflow")], s[8..], 2);
    assert StartingWorkflow[1..] == [AnyStar] + [Word("workflow")];
  }

  /** The enhanced-format metadata of a line: the first `step <n>` number,
      the first `[Refresh-<digits>]` tag as `Refresh-<digits>`, and the status. */
  function LineMetadata(line: string): (m: Metadata)
    ensures m.refreshId.Some? ==> exists d :: (|d| >= 1 && AllDigits(d) && m.refreshId.value == "Refresh-" + d
      && Contains(line, "[Refresh-" + d + "]"))
    ensures m.stepNumber.Some? <==> StepNumber(line).Some?
    ensures m.stepNumber.Some? ==> m.stepNumber.value == ParseNat(StepNumber(line).value)
    ensures m.refreshId.Some? <==> RefreshTag(line).Some?
    ensures m.refreshId.Some? ==> m.refreshId.value == "Refresh-" + RefreshTag(line).value
    ensures m.stepStatus == StepStatus(line)
  {
    var stepNumber := match StepNumber(line) case None => None case Some(d) => Some(ParseNat(d));
    var refreshId := match RefreshTag(line) case None => None case Some(d) => Some("Refresh-" + d);
    Metadata(stepNumber, refreshId, StepStatus(line))
  }

  /** One line of `read_logs_with_filters`, as the loop body runs it: blank
      lines, lines outside the window and lines failing a filter give `None`,
      in the order the body tests them. */
  function ProcessLine(env: Env, host: string, f: Filters, path: string, raw: string): (r: Option<LogEntry>)
  {
    var line := Strip(raw);
    if line == "" then None
    else FilterCandidate(env, f, line, Candidate(env, host, f, path, line))
  }

  /** The loop body's `continue` chain on the entry `e` of the non-blank line
      `line`: the time window, the application filter, then the content filters. */
  function FilterCandidate(env: Env, f: Filters, line: string, e: LogEntry): Option<LogEntry> {
    if f.start.Some? && e.time.micros < f.start.value then None
    else if f.end.Some? && e.time.micros > f.end.value then None
    else if ApplicationOf(AppFilter(f.application), line).None? then None
    else KeepIfMatches(env, f, e)
  }

  /** The tail of the loop body's `continue` chain, on the classified entry:
      component, step, search text, pattern, levels and refresh id. */
  function KeepIfMatches(env: Env, f: Filters, e: LogEntry): Option<LogEntry> {
    if Truthy(f.component) && f.component.value != "all" && f.component.value != e.component then None
    else if Truthy(f.step) && f.step.value != "all" && Some(f.step.value) != e.step then None
    else if Truthy(f.search) && f.search.value != "*" && !Contains(Lower(e.message), Lower(f.search.value)) then None
    else if Truthy(f.pattern) && env.regex(f.pattern.value, e.message) == Some(false) then None
    else if Truthy(f.levels) && e.level !in AllowedLevels(f.levels.value) then None
    else if Truthy(f.refreshId) && !RefreshMatches(f.refreshId.value, e.message) then None
    else Some(e)
  }

  /** The entry a stripped line would give if it passed every filter. */
  function Candidate(env: Env, host: string, f: Filters, path: string, line: string): LogEntry {
    var app := AppFilter(f.application).GetOr(DetectApplication(line));
    var cls := Identify(app, line);
    LogEntry(ApiLineTimestamp(env.clock, line), host, app, cls.0, cls.1, ApiLevel(line), line, path,
      LineMetadata(line))
  }

  /** What every filter demands of an entry, stated on the entry itself: inside
      the window (bounds included), the application filter mentioned, the
      component and step equal to the ones asked for (unless `all`), the
      search text found ignoring case (unless `*`), the pattern not failing, the
      level listed, and the refresh tag present. An invalid pattern filters
      nothing. */
  predicate Admitted(env: Env, f: Filters, e: LogEntry) {
    (f.start.Some? ==> f.start.value <= e.time.micros)
    && (f.end.Some? ==> e.time.micros <= f.end.value)
    && (AppFilter(f.application).Some? ==>
          e.application == AppFilter(f.application).value && AppMatches(e.application, e.message))
    && ContentAdmitted(env, f, e)
  }

  /** The filters on a classified entry's component, step and text. */
  predicate ContentAdmitted(env: Env, f: Filters, e: LogEntry) {
    (Truthy(f.component) && f.component.value != "all" ==> e.component == f.component.value)
    && (Truthy(f.step) && f.step.value != "all" ==> e.step == Some(f.step.value))
    && (Truthy(f.search) && f.search.value != "*" ==> Contains(Lower(e.message), Lower(f.search.value)))
    && (Truthy(f.pattern) ==> env.regex(f.pattern.value, e.message) != Some(false))
    && (Truthy(f.levels) ==> e.level in AllowedLevels(f.levels.value))
    && (Truthy(f.refreshId) ==> RefreshMatches(f.refreshId.value, e.message))
  }

  /** The tail of the chain keeps an entry exactly when the content filters
      admit it, and keeps it unchanged. */
  lemma KeepIfMatchesSpec(env: Env, f: Filters, e: LogEntry)
    ensures KeepIfMatches(env, f, e) == if ContentAdmitted(env, f, e) then Some(e) else None
  {
  }

  /** The loop body keeps exactly the non-blank lines whose entry every filter
      admits, and the kept entry is that entry: the chain of `continue`s is the
      conjunction of the filters. */
  lemma ProcessLineSpec(env: Env, host: string, f: Filters, path: string, raw: string)
    ensures var line := Strip(raw);
      ProcessLine(env, host, f, path, raw) ==
        if line != "" && Admitted(env, f, Candidate(env, host, f, path, line))
        then Some(Candidate(env, host, f, path, line)) else None
  {
    var line := Strip(raw);
    if line != "" {
      var e := Candidate(env, host, f, path, line);
      CandidateApplication(env, host, f, path, line);
      FilterCandidateSpec(env, f, line, e);
    }
  }

  /** The chain keeps the entry of a line exactly when every filter admits it. */
  lemma FilterCandidateSpec(env: Env, f: Filters, line: string, e: LogEntry)
    requires e.message == line && e.application == AppFilter(f.application).GetOr(DetectApplication(line))
    ensures FilterCandidate(env, f, line, e) == if Admitted(env, f, e) then Some(e) else None
  {
    KeepIfMatchesSpec(env, f, e);
  }

  /** The candidate entry keeps the line as its message and takes the
      filtered application when there is one. */
  lemma CandidateApplication(env: Env, host: string, f: Filters, path: string, line: string)
    ensures var e := Candidate(env, host, f, path, line);
      e.message == line && e.application == AppFilter(f.application).GetOr(DetectApplication(line))
  {
  }

  // ---------------------------------------------------------------------------
  // read_logs_with_filters: the files
  // ---------------------------------------------------------------------------

  /** A file under the host's directory that `rglob('*.log')` yields, with its
      size in bytes and its lines. A missing host directory yields no files. */
  datatype LogFile = LogFile(path: string, size: nat, lines: seq<string>)

  /** `MAX_FILE_SIZE`: 2 GiB. */
  const MaxFileSize: nat := 2 * 1024 * 1024 * 1024

  /** Lines read per file: enumeration stops at index 200001. */
  const MaxLinesPerFile: nat := 200001

  /** The lines a file contributes: its first 200001. */
  function FileLines(lines: seq<string>): (r: seq<string>)
    ensures |r| <= MaxLinesPerFile && |r| <= |lines|
    ensures r == lines[..|r|]
    ensures |lines| <= MaxLinesPerFile ==> r == lines
    ensures |lines| > MaxLinesPerFile ==> r == lines[..MaxLinesPerFile]
  {
    if |lines| <= MaxLinesPerFile then lines else lines[..MaxLinesPerFile]
  }

  /** `min(limit, 10000)`. */
  function ResultCap(limit: int): int {
    if limit < 10000 then limit else 10000
  }

  /** The loop body: what the line `raw` of the file at `path` adds, if anything. */
  type LineBody = (string, string) -> Option<LogEntry>

  /** The loop over one file's lines: each kept line is appended, and the
      file is abandoned right after an append that brings the collection to
      `cap * 5`, or at a line on which the body `raises` (the file's
      `except` ends its loop, keeping what was appended before). */
  function ScanLines(keep: LineBody, raises: string -> bool, path: string, lines: seq<string>, cap: int,
                     acc: seq<LogEntry>): seq<LogEntry>
    decreases |lines|
  {
    if lines == [] then acc
    else if raises(lines[0]) then acc
    else
      match keep(path, lines[0])
      case None => ScanLines(keep, raises, path, lines[1..], cap, acc)
      case Some(e) =>
        if |acc + [e]| >= cap * 5 then acc + [e]
        else ScanLines(keep, raises, path, lines[1..], cap, acc + [e])
  }

  /** The loop over the files: an oversized file is skipped (and, as it is
      skipped by `continue`, the collection size is not tested after it); after
      any other file the loop ends once the collection holds `cap * 3`. */
  function ScanFiles(keep: LineBody, raises: string -> bool, files: seq<LogFile>, cap: int, acc: seq<LogEntry>): seq<LogEntry>
    decreases |files|
  {
    if files == [] then acc
    else if files[0].size > MaxFileSize then ScanFiles(keep, raises, files[1..], cap, acc)
    else
      var more := ScanLines(keep, raises, files[0].path, FileLines(files[0].lines), cap, acc);
      if |more| >= cap * 3 then more else ScanFiles(keep, raises, files[1..], cap, more)
  }

  /** The loop body of `read_logs_with_filters` for one request. */
  function LineFilter(env: Env, host: string, f: Filters): LineBody {
    (path, raw) => ProcessLine(env, host, f, path, raw)
  }

  /** The lines on which the loop body raises: comparing a line's timestamp,
      which is always zone-aware, with a naive bound is a `TypeError`, and
      every non-blank line reaches that comparison. */
  function LineRaises(f: Filters): string -> bool {
    raw => f.naive && (f.start.Some? || f.end.Some?) && Strip(raw) != ""
  }

  /** The sort key: the ISO text of the timestamp. */
  function IsoKey(e: LogEntry): string {
    e.time.iso
  }

  /** `read_logs_with_filters`: collect, sort newest first by ISO text, drop
      `offset` entries when it is positive, and return at most
      `min(limit, 10000)`. */
  function ReadLogs(env: Env, host: string, files: seq<LogFile>, f: Filters, limit: int, offset: int): seq<LogEntry> {
    var cap := ResultCap(limit);
    Page(Collected(env, host, files, f, cap), offset, cap)
  }

  /** The collection of one request, sorted newest first by ISO text. */
  function Collected(env: Env, host: string, files: seq<LogFile>, f: Filters, cap: int): seq<LogEntry> {
    SortDescByText(ScanFiles(LineFilter(env, host, f), LineRaises(f), files, cap, []), IsoKey)
  }

  /** The pagination of a sorted collection: `logs[offset:]` when `offset` is
      positive, then `logs[:cap]`. */
  function Page(sorted: seq<LogEntry>, offset: int, cap: int): seq<LogEntry> {
    PyTake(if offset > 0 then PyDrop(sorted, offset) else sorted, cap)
  }

  /** An entry some line of some readable file gives: the file is at most
      `MaxFileSize`, the line is among its first 200001, not blank, and every
      filter admits its entry. */
  predicate FromFiles(env: Env, host: string, f: Filters, files: seq<LogFile>, e: LogEntry) {
    exists k, j :: 0 <= k < |files| && 0 <= j < |FileLines(files[k].lines)| && files[k].size <= MaxFileSize
      && Strip(FileLines(files[k].lines)[j]) != ""
      && e == Candidate(env, host, f, files[k].path, Strip(FileLines(files[k].lines)[j]))
      && Admitted(env, f, e)
  }

  /** Some line of `lines` is kept as `e`. */
  predicate KeptFrom(keep: LineBody, path: string, lines: seq<string>, e: LogEntry) {
    exists j :: 0 <= j < |lines| && keep(path, lines[j]) == Some(e)
  }

  /** One file's loop only appends, and only what its body keeps. */
  lemma {:induction false} ScanLinesSource(keep: LineBody, raises: string -> bool, path: string,
                                           lines: seq<string>, cap: int, acc: seq<LogEntry>)
    ensures var r := ScanLines(keep, raises, path, lines, cap, acc);
      |acc| <= |r| && r[..|acc|] == acc
      && forall e :: e in r[|acc|..] ==> KeptFrom(keep, path, lines, e)
    decreases |lines|
  {
    if lines != [] && !raises(lines[0]) {
      var tail := lines[1..];
      assert forall e :: KeptFrom(keep, path, tail, e) ==> KeptFrom(keep, path, lines, e) by {
        forall e | KeptFrom(keep, path, tail, e) ensures KeptFrom(keep, path, lines, e) {
          var j :| 0 <= j < |tail| && keep(path, tail[j]) == Some(e);
          assert tail[j] == lines[j + 1];
        }
      }
      match keep(path, lines[0])
      case None =>
        ScanLinesSource(keep, raises, path, tail, cap, acc);
      case Some(e) =>
        if |acc + [e]| < cap * 5 {
          ScanLinesSource(keep, raises, path, tail, cap, acc + [e]);
          var r := ScanLines(keep, raises, path, tail, cap, acc + [e]);
          assert r[..|acc|] == r[..|acc| + 1][..|acc|];
          forall x | x in r[|acc|..] ensures KeptFrom(keep, path, lines, x) {
            var m :| |acc| <= m < |r| && r[m] == x;
            if m == |acc| {
              assert r[m] == (acc + [e])[m];
            } else {
              assert r[m] in r[|acc| + 1..];
            }
          }
        }
    }
  }

  /** Some file within the size limit keeps `e` from among its first 200001 lines. */
  predicate KeptFromFiles(keep: LineBody, files: seq<LogFile>, e: LogEntry) {
    exists k :: 0 <= k < |files| && files[k].size <= MaxFileSize && KeptFrom(keep, files[k].path, FileLines(files[k].lines), e)
  }

  /** The file loop only appends, and only entries some line of a file within
      the size limit gives. */
  lemma {:induction false} ScanFilesSource(keep: LineBody, raises: string -> bool, files: seq<LogFile>, cap: int,
                                           acc: seq<LogEntry>)
    ensures var r := ScanFiles(keep, raises, files, cap, acc);
      |acc| <= |r| && r[..|acc|] == acc
      && forall e :: e in r[|acc|..] ==> KeptFromFiles(keep, files, e)
    decreases |files|
  {
    if files != [] {
      var tail := files[1..];
      KeptFromTail(keep, files);
      if files[0].size > MaxFileSize {
        ScanFilesSource(keep, raises, tail, cap, acc);
      } else {
        var lines := FileLines(files[0].lines);
        ScanLinesSource(keep, raises, files[0].path, lines, cap, acc);
        var more := ScanLines(keep, raises, files[0].path, lines, cap, acc);
        if |more| < cap * 3 {
          ScanFilesSource(keep, raises, tail, cap, more);
          var r := ScanFiles(keep, raises, tail, cap, more);
          ExtendTwice(acc, more, r);
          forall x | x in more[|acc|..] ensures KeptFromFiles(keep, files, x) {
            KeptFromHead(keep, files, x);
          }
        }
      }
    }
  }

  /** Whatever a later file keeps, the whole list keeps. */
  lemma KeptFromTail(keep: LineBody, files: seq<LogFile>)
    requires files != []
    ensures forall e :: KeptFromFiles(keep, files[1..], e) ==> KeptFromFiles(keep, files, e)
  {
    var tail := files[1..];
    forall e | KeptFromFiles(keep, tail, e) ensures KeptFromFiles(keep, files, e) {
      var k :| 0 <= k < |tail| && tail[k].size <= MaxFileSize
        && KeptFrom(keep, tail[k].path, FileLines(tail[k].lines), e);
      assert tail[k] == files[k + 1];
    }
  }

  /** Whatever the first file keeps, the whole list keeps. */
  lemma KeptFromHead(keep: LineBody, files: seq<LogFile>, e: LogEntry)
    requires files != [] && files[0].size <= MaxFileSize
    requires KeptFrom(keep, files[0].path, FileLines(files[0].lines), e)
    ensures KeptFromFiles(keep, files, e)
  {
  }

  /** Two extensions in a row extend the start, and what they add is what
      the first added followed by what the second added. */
  lemma ExtendTwice<T>(acc: seq<T>, more: seq<T>, r: seq<T>)
    requires |acc| <= |more| && more[..|acc|] == acc
    requires |more| <= |r| && r[..|more|] == more
    ensures r[..|acc|] == acc
    ensures forall x :: x in r[|acc|..] ==> x in more[|acc|..] || x in r[|more|..]
  {
    assert r[..|acc|] == r[..|more|][..|acc|];
    forall x | x in r[|acc|..] ensures x in more[|acc|..] || x in r[|more|..] {
      var m :| |acc| <= m < |r| && r[m] == x;
      if m < |more| {
        assert r[m] == more[|acc|..][m - |acc|];
      } else {
        assert r[m] == r[|more|..][m - |more|];
      }
    }
  }

  /** A kept entry is the candidate entry of its line, admitted by every filter. */
  lemma KeptIsAdmitted(env: Env, host: string, f: Filters, files: seq<LogFile>, e: LogEntry)
    requires KeptFromFiles(LineFilter(env, host, f), files, e)
    ensures FromFiles(env, host, f, files, e)
  {
    var keep := LineFilter(env, host, f);
    var k :| 0 <= k < |files| && files[k].size <= MaxFileSize && KeptFrom(keep, files[k].path, FileLines(files[k].lines), e);
    var j :| 0 <= j < |FileLines(files[k].lines)| && keep(files[k].path, FileLines(files[k].lines)[j]) == Some(e);
    ProcessLineSpec(env, host, f, files[k].path, FileLines(files[k].lines)[j]);
  }

  /** Paging a newest-first list (drop `offset` when positive, then take
      `cap`) keeps the order, keeps only its entries, and keeps at most `cap`. */
  lemma PageOfNewestFirst(sorted: seq<LogEntry>, offset: int, cap: int)
    requires forall i :: 0 < i < |sorted| ==> LexLe(sorted[i].time.iso, sorted[i - 1].time.iso)
    ensures var r := Page(sorted, offset, cap);
      && (forall i :: 0 < i < |r| ==> LexLe(r[i].time.iso, r[i - 1].time.iso))
      && (forall e :: e in r ==> e in sorted)
      && (cap >= 0 ==> |r| <= cap)
  {
    var paged := if offset > 0 then PyDrop(sorted, offset) else sorted;
    var d := |sorted| - |paged|;
    assert paged == sorted[d..];
    var r := PyTake(paged, cap);
    assert r == paged[..|r|];
    forall i | 0 < i < |r| ensures LexLe(r[i].time.iso, r[i - 1].time.iso) {
      assert r[i] == sorted[d + i] && r[i - 1] == sorted[d + i - 1];
    }
    forall e | e in r ensures e in sorted {
      var i :| 0 <= i < |r| && r[i] == e;
      assert sorted[d + i] == e;
    }
  }

  /** What `read_logs_with_filters` returns: entries of lines that pass every
      filter, from files within the size limit and from each file's first
      200001 lines, newest first by ISO text, and at most `min(limit, 10000)`. */
  lemma ReadLogsSpec(env: Env, host: string, files: seq<LogFile>, f: Filters, limit: int, offset: int)
    ensures var r := ReadLogs(env, host, files, f, limit, offset);
      && (forall e :: e in r ==> FromFiles(env, host, f, files, e))
      && (forall i :: 0 < i < |r| ==> LexLe(r[i].time.iso, r[i - 1].time.iso))
      && (limit >= 0 ==> |r| <= ResultCap(limit))
  {
    var cap := ResultCap(limit);
    var found := ScanFiles(LineFilter(env, host, f), LineRaises(f), files, cap, []);
    ScanFilesSource(LineFilter(env, host, f), LineRaises(f), files, cap, []);
    var sorted := SortDescByText(found, IsoKey);
    SortDescByTextSpec(found, IsoKey);
    PageOfNewestFirst(sorted, offset, cap);
    forall e | e in ReadLogs(env, host, files, f, limit, offset) ensures FromFiles(env, host, f, files, e) {
      assert e in multiset(sorted);
      assert e in found[0..];
      KeptIsAdmitted(env, host, f, files, e);
    }
  }

  /** A file whose every line is skipped or raises adds nothing. */
  lemma {:induction false} ScanLinesRaising(keep: LineBody, raises: string -> bool, path: string,
                                            lines: seq<string>, cap: int, acc: seq<LogEntry>)
    requires forall raw :: raises(raw) || keep(path, raw).None?
    ensures ScanLines(keep, raises, path, lines, cap, acc) == acc
    decreases |lines|
  {
    if lines != [] && !raises(lines[0]) {
      ScanLinesRaising(keep, raises, path, lines[1..], cap, acc);
    }
  }

  /** When every line is skipped or raises, no file adds anything. */
  lemma {:induction false} ScanFilesRaising(keep: LineBody, raises: string -> bool, files: seq<LogFile>, cap: int,
                                            acc: seq<LogEntry>)
    requires forall path, raw :: raises(raw) || keep(path, raw).None?
    ensures ScanFiles(keep, raises, files, cap, acc) == acc
    decreases |files|
  {
    if files != [] {
      if files[0].size <= MaxFileSize {
        ScanLinesRaising(keep, raises, files[0].path, FileLines(files[0].lines), cap, acc);
      }
      ScanFilesRaising(keep, raises, files[1..], cap, acc);
    }
  }

  /** With naive bounds, every non-blank line raises at the window test and
      every file is abandoned there, so the read returns nothing at all. */
  lemma NaiveWindowReadsNothing(env: Env, host: string, files: seq<LogFile>, f: Filters, limit: int, offset: int)
    requires f.naive && (f.start.Some? || f.end.Some?)
    ensures ReadLogs(env, host, files, f, limit, offset) == []
  {
    var keep, raises := LineFilter(env, host, f), LineRaises(f);
    forall path, raw ensures raises(raw) || keep(path, raw).None? {
    }
    var cap := ResultCap(limit);
    ScanFilesRaising(keep, raises, files, cap, []);
    var sorted := SortDescByText(ScanFiles(keep, raises, files, cap, []), IsoKey);
    assert |sorted| == |multiset(sorted)| == 0;
  }

  /** `read_logs_with_filters` as it runs: collect, sort, page. */
  method ReadLogsWithFilters(env: Env, host: string, files: seq<LogFile>, f: Filters, limit: int, offset: int)
    returns (logs: seq<LogEntry>)
    ensures logs == ReadLogs(env, host, files, f, limit, offset)
  {
    var cap := if limit < 10000 then limit else 10000;
    logs := ScanLogFiles(env, host, files, f, cap);
    logs := SortDescByText(logs, IsoKey);
    if offset > 0 {
      logs := PyDrop(logs, offset);
    }
    logs := PyTake(logs, cap);
  }

  /** The `for log_file in ...` loop: files in order, the oversized ones
      skipped, the line loop left early at `cap * 5` entries and the file loop
      at `cap * 3`. */
  method ScanLogFiles(env: Env, host: string, files: seq<LogFile>, f: Filters, cap: int) returns (logs: seq<LogEntry>)
    ensures logs == ScanFiles(LineFilter(env, host, f), LineRaises(f), files, cap, [])
  {
    logs := [];
    var k := 0;
    while k < |files|
      invariant 0 <= k <= |files|
      invariant ScanFiles(LineFilter(env, host, f), LineRaises(f), files, cap, [])
        == ScanFiles(LineFilter(env, host, f), LineRaises(f), files[k..], cap, logs)
    {
      assert files[k..][1..] == files[k + 1..];
      var file := files[k];
      if file.size > MaxFileSize {
        k := k + 1;
        continue;
      }
      var lines := ReadFileLines(file.lines);
      logs := ScanFileLines(env, host, f, file.path, lines, cap, logs);
      if |logs| >= cap * 3 {
        return;
      }
      k := k + 1;
    }
    assert files[k..] == [];
  }

  /** The `for i, line in enumerate(f)` loop: lines are read until index 200001. */
  method ReadFileLines(file: seq<string>) returns (lines: seq<string>)
    ensures lines == FileLines(file)
  {
    lines := [];
    var i := 0;
    while i < |file|
      invariant 0 <= i <= |file| && i <= MaxLinesPerFile
      invariant lines == file[..i]
    {
      if i > 200000 {
        break;
      }
      lines := lines + [file[i]];
      i := i + 1;
    }
  }

  /** The `for line in lines` loop of one file. */
  method ScanFileLines(env: Env, host: string, f: Filters, path: string, lines: seq<string>, cap: int,
                       acc: seq<LogEntry>) returns (logs: seq<LogEntry>)
    ensures logs == ScanLines(LineFilter(env, host, f), LineRaises(f), path, lines, cap, acc)
  {
    logs := ScanLinesWith(LineFilter(env, host, f), LineRaises(f), path, lines, cap, acc);
  }

  /** The loop over one file's lines for any line body `keep` that raises
      on the lines `raises` picks out. */
  method ScanLinesWith(keep: LineBody, raises: string -> bool, path: string, lines: seq<string>, cap: int,
                       acc: seq<LogEntry>) returns (logs: seq<LogEntry>)
    ensures logs == ScanLines(keep, raises, path, lines, cap, acc)
  {
    logs := acc;
    for i := 0 to |lines|
      invariant ScanLines(keep, raises, path, lines, cap, acc) == ScanLines(keep, raises, path, lines[i..], cap, logs)
    {
      assert lines[i..][1..] == lines[i + 1..];
      if raises(lines[i]) {
        return;
      }
      var entry := keep(path, lines[i]);
      if entry.Some? {
        logs := logs + [entry.value];
        if |logs| >= cap * 5 {
          return;
        }
      }
    }
  }

  // ---------------------------------------------------------------------------
  // GET /logger/host=<host>
  // ---------------------------------------------------------------------------

  /** The query arguments of the host route, absent when not given. */
  datatype HostArgs = HostArgs(
    application: Option<string>, component: Option<string>, step: Option<string>, log: Option<string>,
    time: Option<string>, limit: Option<int>,
    search: Option<string>, pattern: Option<string>, level: Option<string>, refreshId: Option<string>,
    offset: Option<int>)

  /** `min(limit, 500)`, 100 when not given. */
  function RouteLimit(args: HostArgs): (n: int)
    ensures n <= 500
    ensures args.limit.None? ==> n == 100
    ensures args.limit.Some? ==> n <= args.limit.value && (n == args.limit.value || n == 500)
  {
    var l := args.limit.GetOr(100);
    if l < 500 then l else 500
  }

  /** `min(offset, 10000)`, 0 when not given. */
  function RouteOffset(args: HostArgs): (n: int)
    ensures n <= 10000
    ensures args.offset.None? ==> n == 0
    ensures args.offset.Some? ==> n <= args.offset.value && (n == args.offset.value || n == 10000)
  {
    var o := args.offset.GetOr(0);
    if o < 10000 then o else 10000
  }

  /** The filters the route passes on: `all` for a missing application,
      component or step, and the bounds of the parsed time window. */
  function RouteFilters(args: HostArgs, clock: Clock): Filters {
    var w := ApiTimeFilter(args.time.GetOr(""), clock);
    Filters(Some(args.application.GetOr("all")), Some(args.component.GetOr("all")), Some(args.step.GetOr("all")),
      if w.Some? then Some(w.value.start) else None, if w.Some? then Some(w.value.end) else None,
      args.search, args.pattern, args.level, args.refreshId, w.Some? && w.value.naive)
  }

  const RunWords: seq<string> := ["started", "completed", "finished", "run", "execution"]

  /** The `log` type's extra filter: `errors` keeps ERROR entries, `lastrun`
      keeps entries whose lower-cased message holds a run keyword, and every
      other type keeps all. */
  function ByLogType(logType: string, logs: seq<LogEntry>): (r: seq<LogEntry>)
    ensures forall e :: e in r ==> e in logs
    ensures logType == "errors" ==> forall e :: e in r <==> e in logs && e.level == "ERROR"
    ensures logType == "lastrun" ==> forall e :: e in r <==> e in logs && ContainsAny(Lower(e.message), RunWords)
    ensures logType !in {"errors", "lastrun"} ==> r == logs
    ensures |r| <= |logs|
  {
    if logType == "errors" then Filter(logs, (e: LogEntry) => e.level == "ERROR")
    else if logType == "lastrun" then Filter(logs, (e: LogEntry) => ContainsAny(Lower(e.message), RunWords))
    else logs
  }

  /** The collection the route sorts before paging, newest first. */
  function RouteSorted(env: Env, host: string, files: seq<LogFile>, args: HostArgs): seq<LogEntry> {
    Collected(env, host, files, RouteFilters(args, env.clock), ResultCap(RouteLimit(args) + RouteOffset(args)))
  }

  /** The entries of `get_host_logs`, as written: it asks for
      `limit + offset` entries after skipping `offset`. */
  function HostLogs(env: Env, host: string, files: seq<LogFile>, args: HostArgs): seq<LogEntry> {
    var limit, offset := RouteLimit(args), RouteOffset(args);
    var logs := ReadLogs(env, host, files, RouteFilters(args, env.clock), limit + offset, offset);
    ByLogType(args.log.GetOr("recent"), logs)
  }

  /** As written, a page past the first returns more than `limit` entries:
      with a positive offset and enough matching lines, it returns
      `min(limit + offset, 10000)` of them (limit 10, offset 10 and 30 matching
      lines give 20). */
  lemma HostLogsCanOverrun(env: Env, host: string, files: seq<LogFile>, args: HostArgs)
    requires args.log.None?
    requires RouteOffset(args) > 0 && RouteLimit(args) >= 0
    requires |RouteSorted(env, host, files, args)| >= ResultCap(RouteLimit(args) + RouteOffset(args)) + RouteOffset(args)
    ensures |HostLogs(env, host, files, args)| == ResultCap(RouteLimit(args) + RouteOffset(args)) > RouteLimit(args)
  {
    var offset := RouteOffset(args);
    var sorted := RouteSorted(env, host, files, args);
    assert |PyDrop(sorted, offset)| == |sorted| - offset;
  }

  /** An ISO `time` without an offset gives naive bounds, and then the route
      returns no entries, whatever the files hold. */
  lemma NaiveTimeGivesNothing(env: Env, host: string, files: seq<LogFile>, args: HostArgs)
    requires var w := ApiTimeFilter(args.time.GetOr(""), env.clock); w.Some? && w.value.naive
    ensures HostLogs(env, host, files, args) == []
    ensures HostLogsPaged(env, host, files, args) == []
  {
    var limit, offset := RouteLimit(args), RouteOffset(args);
    NaiveWindowReadsNothing(env, host, files, RouteFilters(args, env.clock), limit + offset, offset);
  }

  /** `get_host_logs` with the page it evidently means: at most `limit`
      entries after the first `offset`. */
  function HostLogsPaged(env: Env, host: string, files: seq<LogFile>, args: HostArgs): seq<LogEntry> {
    var limit, offset := RouteLimit(args), RouteOffset(args);
    var logs := ReadLogs(env, host, files, RouteFilters(args, env.clock), limit + offset, offset);
    ByLogType(args.log.GetOr("recent"), PyTake(logs, limit))
  }

  /** The corrected route returns at most `limit` entries, and for the default
      `recent` type exactly the slice `[offset:offset + limit]` of the sorted
      collection. */
  lemma HostLogsPagedSpec(env: Env, host: string, files: seq<LogFile>, args: HostArgs)
    requires RouteLimit(args) >= 0 && RouteOffset(args) >= 0
    ensures |HostLogsPaged(env, host, files, args)| <= RouteLimit(args)
    ensures args.log.None? ==>
      (HostLogsPaged(env, host, files, args)
         == PySlice(RouteSorted(env, host, files, args), RouteOffset(args), RouteOffset(args) + RouteLimit(args)))
  {
    var limit, offset := RouteLimit(args), RouteOffset(args);
    var sorted := RouteSorted(env, host, files, args);
    var cap := ResultCap(limit + offset);
    assert HostLogsPaged(env, host, files, args) == ByLogType(args.log.GetOr("recent"), PyTake(Page(sorted, offset, cap), limit));
    PagedWithinCap(args.log.GetOr("recent"), sorted, offset, limit, cap);
  }

  /** A page cut to `limit` and filtered by log type holds at most `limit`
      entries, and is the slice `[offset:offset + limit]` when the type
      filters nothing. */
  lemma PagedWithinCap(logType: string, sorted: seq<LogEntry>, offset: nat, limit: nat, cap: int)
    requires limit <= cap
    ensures |ByLogType(logType, PyTake(Page(sorted, offset, cap), limit))| <= limit
    ensures logType !in {"errors", "lastrun"} ==>
      ByLogType(logType, PyTake(Page(sorted, offset, cap), limit)) == PySlice(sorted, offset, offset + limit)
  {
    PageWithinCap(sorted, offset, limit, cap);
    PyTakePrefix(Page(sorted, offset, cap), limit);
  }

  /** Taking `limit` of a page of `cap >= limit` after dropping `offset` is the
      slice `[offset:offset + limit]`. */
  lemma PageWithinCap(sorted: seq<LogEntry>, offset: nat, limit: nat, cap: int)
    requires limit <= cap
    ensures PyTake(Page(sorted, offset, cap), limit) == PySlice(sorted, offset, offset + limit)
  {
    var dropped := if offset > 0 then PyDrop(sorted, offset) else sorted;
    var start := if offset <= |sorted| then offset else |sorted|;
    assert dropped == sorted[start..];
    PyTakePrefix(dropped, cap);
    var logs := PyTake(dropped, cap);
    PyTakePrefix(logs, limit);
    PySliceWindow(sorted, offset, limit);
  }
}
