/** The pure half of the Redis log processor: what a log file's path says about
    where its lines came from, what one line is turned into, and which sorted
    sets, expiries and counters one stored entry touches. */
module RedisIngest {
  import opened Wrappers
  import opened Text
  import opened PySeq
  import opened Paths
  import opened Store
  import opened Time
  import opened Timestamps
  import opened LineTags

  /** The three settings the environment may override. */
  datatype Settings = Settings(logTtl: int, maxLinesPerFile: int, maxFileSize: int)

  /** `LOG_TTL_HOURS=24`, `MAX_LINES_PER_FILE=5000`, `MAX_FILE_SIZE_MB=50`. */
  const Defaults: Settings := Settings(24 * 3600, 5000, 50 * 1024 * 1024)

  /** `queue.Queue(maxsize=1000)`. */
  const QueueCapacity: nat := 1000

  /** Rank-trim caps of the sorted sets. */
  const StepCap: nat := 1000
  const RefreshCap: nat := 5000
  const StepLevelCap: nat := 500
  const IndexCap: nat := 10000
  const LevelCap: nat := 1000

  /** The hosts the watcher recognises in a path. */
  const KnownHosts: seq<string> := ["ssdev", "ssdvr", "ssmcp", "ssrun"]

  /** The component that marks structured step logs. */
  const Orchestrator: string := "iptv-orchestrator"

  // ---------------------------------------------------------------- paths

  /** `_extract_app_name`: a whole path segment names the application, else the
      word `system` anywhere in the path text, else `unknown`. */
  function AppName(p: Path): (app: string)
    ensures app == "sports-scheduler" <==> "sports-scheduler" in Parts(p)
    ensures app == "auto-scraper" <==> "auto-scraper" in Parts(p) && "sports-scheduler" !in Parts(p)
    ensures app == "system" <==>
      "sports-scheduler" !in Parts(p) && "auto-scraper" !in Parts(p) && Contains(Str(p), "system")
    ensures app == "unknown" <==>
      "sports-scheduler" !in Parts(p) && "auto-scraper" !in Parts(p) && !Contains(Str(p), "system")
  {
    var parts := Parts(p);
    if "sports-scheduler" in parts then "sports-scheduler"
    else if "auto-scraper" in parts then "auto-scraper"
    else if Contains(Str(p), "system") then "system"
    else "unknown"
  }

  /** The file-name words `_extract_component_name` looks for, in its order. */
  const FileComponents: seq<string> := [Orchestrator, "epg-processor", "automated-recording", "application", "api"]

  /** `_extract_component_name`: an `iptv-orchestrator` segment wins; otherwise
      the first of the listed words the file name contains, else `general`. */
  function ComponentName(p: Path): (c: string)
    ensures Orchestrator in Parts(p) ==> c == Orchestrator
    ensures Orchestrator !in Parts(p) ==>
      var k := FirstContainedIndex(Name(p), FileComponents);
      (k < |FileComponents| ==> c == FileComponents[k]) && (k == |FileComponents| ==> c == "general")
  {
    if Orchestrator in Parts(p) then Orchestrator
    else FirstContained(Name(p), FileComponents, "general")
  }

  /** `_extract_refresh_id_and_step`: the two segments after the first
      `iptv-orchestrator` segment, the second with every `.log` removed; both
      or neither are present. */
  function RefreshAndStep(p: Path): (r: (Option<string>, Option<string>))
    ensures r.0.Some? <==> r.1.Some?
    ensures r.0.Some? <==> Orchestrator in Parts(p) && ListIndex(Parts(p), Orchestrator) + 2 < |Parts(p)|
  {
    var parts := Parts(p);
    if Orchestrator in parts && ListIndex(parts, Orchestrator) + 2 < |parts| then
      var i := ListIndex(parts, Orchestrator);
      (Some(parts[i + 1]), Some(ReplaceAll(parts[i + 2], ".log", "")))
    else (None, None)
  }

  /** The host `LogFileWatcher.on_modified` files a path under: the first
      segment that is a known host, else `unknown`. */
  function HostOf(parts: seq<string>): (host: string)
    ensures host in KnownHosts || host == "unknown"
    ensures host == "unknown" <==> forall k :: 0 <= k < |parts| ==> parts[k] !in KnownHosts
    ensures host != "unknown" ==>
      exists k :: 0 <= k < |parts| && parts[k] == host && forall j :: 0 <= j < k ==> parts[j] !in KnownHosts
  {
    if parts == [] then "unknown"
    else if parts[0] in KnownHosts then
      assert parts[0] != "unknown";
      parts[0]
    else
      var h := HostOf(parts[1..]);
      assert forall k :: 1 <= k < |parts| ==> parts[k] == parts[1..][k - 1];
      h
  }

  // ---------------------------------------------------------------- one line

  /** The alternatives of `\b(DEBUG|INFO|WARNING|WARN|ERROR|CRITICAL|FATAL)\b`, in order. */
  const LevelWords: seq<string> := ["DEBUG", "INFO", "WARNING", "WARN", "ERROR", "CRITICAL", "FATAL"]

  /** `\b` before position `i` when `s[i]` is a word character. */
  predicate WordStart(s: string, i: nat) {
    i == 0 || (i <= |s| && !IsWordChar(s[i - 1]))
  }

  /** `\b` at position `j` after a word character. */
  predicate WordEnd(s: string, j: nat) {
    j == |s| || (j < |s| && !IsWordChar(s[j]))
  }

  /** `w` (upper case) occurs at `i` when case is ignored. */
  predicate OccursIgnoringCase(s: string, w: string, i: nat) {
    i + |w| <= |s| && Upper(s[i..i + |w|]) == w
  }

  /** The first alternative, from the `k`-th on, that matches at `i` and ends on
      a word boundary (the engine tries the alternatives in order). */
  function LevelAlternative(s: string, i: nat, k: nat): (r: Option<string>)
    ensures r.Some? ==> r.value in LevelWords
    decreases |LevelWords| - k
  {
    if k >= |LevelWords| then None
    else if OccursIgnoringCase(s, LevelWords[k], i) && WordEnd(s, i + |LevelWords[k]|) then Some(LevelWords[k])
    else LevelAlternative(s, i, k + 1)
  }

  /** What the level regex matches at position `i`, upper-cased. */
  function LevelAt(s: string, i: nat): Option<string> {
    if WordStart(s, i) then LevelAlternative(s, i, 0) else None
  }

  /** The level `_parse_log_line` gives a line: the leftmost whole-word level
      name, case ignored and upper-cased, else `INFO`. `WARN` and `FATAL` stay
      as they are. */
  function LevelOf(line: string): (level: string)
    ensures level in LevelWords
  {
    match Search(line, LevelAt, 0)
    case Some(w) =>
      w
    case None => "INFO"
  }

  /** A line that opens with a level name, in any case, followed by a non-word
      character gets exactly that level. */
  lemma LevelOfLeadingWord(k: nat, rest: string)
    requires k < |LevelWords| && WordEnd(rest, 0)
    ensures LevelOf(Lower(LevelWords[k]) + rest) == LevelWords[k]
  {
    var w := LevelWords[k];
    var s := Lower(w) + rest;
    assert s[..|w|] == Lower(w);
    assert Upper(Lower(w)) == w by {
      assert forall j :: 0 <= j < |w| ==> 'A' <= w[j] <= 'Z';
    }
    assert WordEnd(s, |w|) by {
      if rest != [] {
        assert s[|w|] == rest[0];
      }
    }
    forall j | 0 <= j < k ensures !(OccursIgnoringCase(s, LevelWords[j], 0) && WordEnd(s, |LevelWords[j]|)) {
      EarlierLevelFails(k, j, rest);
    }
    AlternativesSkipped(s, 0, k);
    assert LevelAt(s, 0) == Some(w);
  }

  /** No level name listed before the `k`-th matches at the front of a line
      that opens with the `k`-th and a non-word character. */
  lemma EarlierLevelFails(k: nat, j: nat, rest: string)
    requires j < k < |LevelWords| && WordEnd(rest, 0)
    ensures var s := Lower(LevelWords[k]) + rest;
      !(OccursIgnoringCase(s, LevelWords[j], 0) && WordEnd(s, |LevelWords[j]|))
  {
    var w, v := LevelWords[k], LevelWords[j];
    var s := Lower(w) + rest;
    if |v| <= |s| {
      assert Upper(s[..|v|])[0] == UpperChar(s[0]);
      if k == 3 && j == 2 {
        // "WARN" followed by a non-word character is not "WARNING"
        assert Upper(s[..|v|])[4] == UpperChar(s[4]);
        assert s[4] == rest[0];
      }
    }
  }

  /** Alternatives before the `k`-th that do not match are passed over. */
  lemma {:induction false} AlternativesSkipped(s: string, i: nat, k: nat)
    requires k < |LevelWords|
    requires forall j :: 0 <= j < k ==>
      !(OccursIgnoringCase(s, LevelWords[j], i) && WordEnd(s, i + |LevelWords[j]|))
    requires OccursIgnoringCase(s, LevelWords[k], i) && WordEnd(s, i + |LevelWords[k]|)
    ensures forall j :: 0 <= j <= k ==> LevelAlternative(s, i, j) == Some(LevelWords[k])
  {
    var j := k;
    while j > 0
      invariant 0 <= j <= k
      invariant forall t :: j <= t <= k ==> LevelAlternative(s, i, t) == Some(LevelWords[k])
    {
      j := j - 1;
    }
  }

  /** One parsed line, before cleaning. */
  datatype LogRecord = LogRecord(
    timestamp: Instant,
    level: string,
    message: string,
    filePath: string,
    lineNumber: nat,
    refreshId: Option<string>,
    step: Option<string>,
    stepName: Option<string>,
    indexedAt: Instant)

  /** `_parse_log_line`. The refresh id and step name come from the path; the
      message's `[Refresh-n]` tag is used only when the path gives no refresh
      id, and the message's step number only when it gives no step name. */
  function ParseLogLine(clock: Clock, line: string, path: Path, lineNum: nat): (r: LogRecord)
    ensures r.level in LevelWords
    ensures r.message == Strip(line) && r.lineNumber == lineNum && r.stepName == RefreshAndStep(path).1
    ensures Truthy(RefreshAndStep(path).0) ==> r.refreshId == RefreshAndStep(path).0
    ensures !Truthy(RefreshAndStep(path).0) && r.refreshId.Some? ==>
      AllDigits(r.refreshId.value) && Contains(line, "[Refresh-" + r.refreshId.value + "]")
    ensures Truthy(r.stepName) ==> r.step.None?
    ensures !Truthy(r.stepName) && r.step.Some? ==> |r.step.value| >= 1 && AllDigits(r.step.value)
  {
    var (pathRefresh, stepName) := RefreshAndStep(path);
    var refreshId := if Truthy(pathRefresh) then pathRefresh else RefreshTag(line);
    var step := if Truthy(stepName) then None else StepNumber(line);
    assert !Truthy(pathRefresh) && refreshId.Some? ==> Contains(line, "[Refresh-" + refreshId.value + "]") by {
      if !Truthy(pathRefresh) && refreshId.Some? {
        var i :| 0 <= i <= |line| && RefreshTagAt(line, i) == refreshId;
        ContainsAt(line, "[Refresh-" + refreshId.value + "]", i);
      }
    }
    assert step.Some? ==> |step.value| >= 1 && AllDigits(step.value) by {
      if step.Some? {
        var i :| 0 <= i <= |line| && StepAt(line, i) == step;
      }
    }
    LogRecord(RedisLineTimestamp(clock, line), LevelOf(line), Strip(line), Str(path), lineNum,
              refreshId, step, stepName, clock.now)
  }

  // ---------------------------------------------------------------- one entry

  /** A sorted-set member: the JSON text of a flat string-to-string object, or
      text that is not such JSON (which readers skip). `json.dumps` keeps the
      fixed field order of the cleaner, so the object determines the text. */
  datatype Member = Doc(fields: map<string, string>) | NotJson(text: string)

  /** The clean entry: `None` fields dropped, every other value turned into text. */
  function CleanEntry(r: LogRecord): (doc: map<string, string>)
    ensures doc.Keys == {"timestamp", "level", "message", "file_path", "line_number", "indexed_at"}
      + (if r.refreshId.Some? then {"refresh_id"} else {})
      + (if r.step.Some? then {"step"} else {})
      + (if r.stepName.Some? then {"step_name"} else {})
    ensures doc["timestamp"] == r.timestamp.iso && doc["level"] == r.level && doc["message"] == r.message
    ensures AllDigits(doc["line_number"]) && ParseNat(doc["line_number"]) == r.lineNumber
    ensures r.refreshId.Some? ==> doc["refresh_id"] == r.refreshId.value
    ensures r.step.Some? ==> doc["step"] == r.step.value
    ensures r.stepName.Some? ==> doc["step_name"] == r.stepName.value
  {
    ParseNatToString(r.lineNumber);
    var base := map[
      "timestamp" := r.timestamp.iso, "level" := r.level, "message" := r.message,
      "file_path" := r.filePath, "line_number" := NatToString(r.lineNumber),
      "indexed_at" := r.indexedAt.iso];
    var withRefresh := if r.refreshId.Some? then base["refresh_id" := r.refreshId.value] else base;
    var withStep := if r.step.Some? then withRefresh["step" := r.step.value] else withRefresh;
    if r.stepName.Some? then withStep["step_name" := r.stepName.value] else withStep
  }

  /** `int(datetime.fromisoformat(clean_entry['timestamp']).timestamp())`. */
  function Score(r: LogRecord): int {
    Seconds(r.timestamp.micros)
  }

  function IndexKey(host: string, app: string, component: string): string {
    "logs:" + host + ":" + app + ":" + component
  }

  function StatsKey(host: string, app: string): string {
    "logs:stats:" + host + ":" + app
  }

  function MetaKey(host: string, fileHash: string): string {
    "logs:meta:" + host + ":" + fileHash
  }

  /** The structured step sets are written only for the orchestrator and only
      when both the refresh id and the step name are non-empty. */
  predicate Structured(component: string, r: LogRecord) {
    component == Orchestrator && Truthy(r.refreshId) && Truthy(r.stepName)
  }

  /** The step, refresh-wide and step-level sets of a structured entry. */
  function StructuredPuts(index: string, component: string, r: LogRecord): (ps: seq<Put>)
    ensures Structured(component, r) ==>
      var stepKey := index + ":" + r.refreshId.value + ":" + r.stepName.value;
      ps == [Put(stepKey, Some(StepCap)),
             Put(index + ":" + r.refreshId.value + ":all", Some(RefreshCap)),
             Put(stepKey + ":level:" + r.level, Some(StepLevelCap))]
    ensures !Structured(component, r) ==> ps == []
  {
    if Structured(component, r) then
      var stepKey := index + ":" + r.refreshId.value + ":" + r.stepName.value;
      [Put(stepKey, Some(StepCap)),
       Put(index + ":" + r.refreshId.value + ":all", Some(RefreshCap)),
       Put(stepKey + ":level:" + r.level, Some(StepLevelCap))]
    else []
  }

  /** The primary set and the level set, written for every entry. */
  function CommonPuts(index: string, r: LogRecord): seq<Put> {
    [Put(index, Some(IndexCap)), Put(index + ":level:" + r.level, Some(LevelCap))]
  }

  /** The uncapped legacy refresh and step sets. Their keys continue the
      primary key with `:r` and `:s`, where the level key continues it with `:l`. */
  function LegacyPuts(index: string, r: LogRecord): (ps: seq<Put>)
    ensures |ps| == (if Truthy(r.refreshId) then 1 else 0) + (if Truthy(r.step) then 1 else 0)
    ensures forall j :: 0 <= j < |ps| ==>
      ps[j].cap.None? && |ps[j].key| > |index| + 2
      && ps[j].key[..|index|] == index && ps[j].key[|index|] == ':'
      && (ps[j].key[|index| + 1] == 'r' || ps[j].key[|index| + 1] == 's')
    ensures Truthy(r.refreshId) ==> ps[0].key == index + ":refresh:" + r.refreshId.value
    ensures Truthy(r.step) ==> ps[|ps| - 1].key == index + ":step:" + r.step.value
  {
    var refresh := index + ":refresh:" + (if Truthy(r.refreshId) then r.refreshId.value else "");
    var step := index + ":step:" + (if Truthy(r.step) then r.step.value else "");
    assert refresh[..|index|] == index && refresh[|index| + 1] == 'r';
    assert step[..|index|] == index && step[|index| + 1] == 's';
    (if Truthy(r.refreshId) then [Put(refresh, None)] else [])
    + (if Truthy(r.step) then [Put(step, None)] else [])
  }

  /** The sorted sets `_store_log_entry` writes, in its order. */
  function FanOut(host: string, app: string, component: string, r: LogRecord): seq<Put> {
    PutsUnder(IndexKey(host, app, component), component, r)
  }

  /** The groups of one entry whose primary key is `index`. */
  function PutsUnder(index: string, component: string, r: LogRecord): seq<Put> {
    StructuredPuts(index, component, r) + CommonPuts(index, r) + LegacyPuts(index, r)
  }

  /** The expiries the groups set. */
  function ExpireAll(ttl: map<string, int>, puts: seq<Put>, seconds: int): (r: map<string, int>)
    ensures r.Keys == ttl.Keys + set k | 0 <= k < |puts| :: puts[k].key
    decreases |puts|
  {
    if puts == [] then ttl
    else
      var r := ExpireAll(ttl, puts[..|puts| - 1], seconds)[puts[|puts| - 1].key := seconds];
      assert forall k :: 0 <= k < |puts| - 1 ==> puts[..|puts| - 1][k] == puts[k];
      r
  }

  /** The expiries of up to three groups, one after another. */
  lemma ExpireAllShort(ttl: map<string, int>, a: Put, b: Put, c: Put, seconds: int)
    ensures ExpireAll(ttl, [a], seconds) == ttl[a.key := seconds]
    ensures ExpireAll(ttl, [a, b], seconds) == ttl[a.key := seconds][b.key := seconds]
    ensures ExpireAll(ttl, [a, b, c], seconds) == ttl[a.key := seconds][b.key := seconds][c.key := seconds]
  {
    ExpireAllLast(ttl, [a], seconds);
    assert [a][..0] == [];
    ExpireAllLast(ttl, [a, b], seconds);
    assert [a, b][..1] == [a];
    ExpireAllLast(ttl, [a, b, c], seconds);
    assert [a, b, c][..2] == [a, b];
  }

  /** The last group's expiry is set after all the others. */
  lemma ExpireAllLast(ttl: map<string, int>, puts: seq<Put>, seconds: int)
    requires puts != []
    ensures ExpireAll(ttl, puts, seconds) == ExpireAll(ttl, puts[..|puts| - 1], seconds)[puts[|puts| - 1].key := seconds]
  {
  }

  /** Setting two runs of expiries is setting their concatenation. */
  lemma {:induction false} ExpireAllAppend(ttl: map<string, int>, a: seq<Put>, b: seq<Put>, seconds: int)
    ensures ExpireAll(ttl, a + b, seconds) == ExpireAll(ExpireAll(ttl, a, seconds), b, seconds)
    decreases |b|
  {
    if b == [] {
      assert a + b == a;
    } else {
      var init := b[..|b| - 1];
      assert (a + b)[..|a + b| - 1] == a + init;
      ExpireAllAppend(ttl, a, init, seconds);
    }
  }

  /** The statistics hash after one stored entry. */
  function BumpStats(stats: map<string, map<string, int>>, key: string, level: string): map<string, map<string, int>> {
    var h := if key in stats then stats[key] else map[];
    stats[key := HIncrBy(HIncrBy(h, "total_logs", 1), "level_" + level, 1)]
  }

  /** The Redis state the processor writes: sorted sets, hashes of text (file
      metadata), hashes of counters (statistics) and expiries in seconds. */
  datatype Db = Db(
    zsets: Sets<Member>,
    hashes: map<string, map<string, string>>,
    counters: map<string, map<string, int>>,
    ttl: map<string, int>)

  /** `_store_log_entry` as a whole. */
  function StoreEntry(db: Db, s: Settings, host: string, app: string, component: string, r: LogRecord): Db {
    var puts := FanOut(host, app, component, r);
    var stats := StatsKey(host, app);
    Db(ApplyPuts(db.zsets, puts, Doc(CleanEntry(r)), Score(r)),
       db.hashes,
       BumpStats(db.counters, stats, r.level),
       ExpireAll(db.ttl, puts, s.logTtl)[stats := s.logTtl])
  }

  /** `StoreEntry` written as its three runs of groups (structured, common,
      legacy) applied one after another, then the statistics. */
  lemma StoreEntryInParts(db: Db, s: Settings, host: string, app: string, component: string, r: LogRecord)
    ensures
      var index, m, score := IndexKey(host, app, component), Doc(CleanEntry(r)), Score(r);
      var st, co, le := StructuredPuts(index, component, r), CommonPuts(index, r), LegacyPuts(index, r);
      var stats := StatsKey(host, app);
      StoreEntry(db, s, host, app, component, r) ==
        Db(ApplyPuts(ApplyPuts(ApplyPuts(db.zsets, st, m, score), co, m, score), le, m, score),
           db.hashes,
           BumpStats(db.counters, stats, r.level),
           ExpireAll(ExpireAll(ExpireAll(db.ttl, st, s.logTtl), co, s.logTtl), le, s.logTtl)[stats := s.logTtl])
  {
    var index, m, score := IndexKey(host, app, component), Doc(CleanEntry(r)), Score(r);
    var st, co, le := StructuredPuts(index, component, r), CommonPuts(index, r), LegacyPuts(index, r);
    assert FanOut(host, app, component, r) == (st + co) + le;
    ApplyPutsAppend(db.zsets, st, co, m, score);
    ApplyPutsAppend(db.zsets, st + co, le, m, score);
    ExpireAllAppend(db.ttl, st, co, s.logTtl);
    ExpireAllAppend(db.ttl, st + co, le, s.logTtl);
  }

  // ---------------------------------------------------------------- properties

  /** The primary set and the level set are the last groups that name them, so
      after a store they hold at most 10000 and 1000 members. */
  lemma CommonCapsHold(sets: Sets<Member>, m: Member, score: int, index: string, component: string, r: LogRecord)
    ensures var after := ApplyPuts(sets, PutsUnder(index, component, r), m, score);
      && index in after && |after[index]| <= IndexCap
      && index + ":level:" + r.level in after && |after[index + ":level:" + r.level]| <= LevelCap
  {
    IndexCapHolds(sets, m, score, index, component, r);
    LevelCapHolds(sets, m, score, index, component, r);
  }

  /** The common groups sit right after the structured ones, and every later
      group is a legacy one. */
  lemma CommonPutsAt(index: string, component: string, r: LogRecord) returns (base: nat)
    ensures var puts, legacy := PutsUnder(index, component, r), LegacyPuts(index, r);
      && base + 2 + |legacy| == |puts|
      && puts[base] == Put(index, Some(IndexCap))
      && puts[base + 1] == Put(index + ":level:" + r.level, Some(LevelCap))
      && forall j :: base + 1 < j < |puts| ==> puts[j] == legacy[j - base - 2]
  {
    var st, legacy := StructuredPuts(index, component, r), LegacyPuts(index, r);
    var puts := PutsUnder(index, component, r);
    base := |st|;
    assert puts == st + CommonPuts(index, r) + legacy;
  }

  lemma IndexCapHolds(sets: Sets<Member>, m: Member, score: int, index: string, component: string, r: LogRecord)
    ensures var after := ApplyPuts(sets, PutsUnder(index, component, r), m, score);
      index in after && |after[index]| <= IndexCap
  {
    var puts, legacy := PutsUnder(index, component, r), LegacyPuts(index, r);
    var base := CommonPutsAt(index, component, r);
    var levelKey := index + ":level:" + r.level;
    assert levelKey[|index| + 1] == 'l';
    forall j | base < j < |puts| ensures puts[j].key != index {
      if j > base + 1 {
        assert puts[j] == legacy[j - base - 2];
      }
    }
    CapHolds(sets, puts, m, score, base);
  }

  lemma LevelCapHolds(sets: Sets<Member>, m: Member, score: int, index: string, component: string, r: LogRecord)
    ensures var after := ApplyPuts(sets, PutsUnder(index, component, r), m, score);
      var levelKey := index + ":level:" + r.level;
      levelKey in after && |after[levelKey]| <= LevelCap
  {
    var puts, legacy := PutsUnder(index, component, r), LegacyPuts(index, r);
    var base := CommonPutsAt(index, component, r);
    var levelKey := index + ":level:" + r.level;
    forall j | base + 1 < j < |puts| ensures puts[j].key != levelKey {
      assert puts[j] == legacy[j - base - 2];
    }
    CapHolds(sets, puts, m, score, base + 1);
  }

  /** The refresh-wide and step-level sets of a structured entry are the last
      groups that name them, so they hold at most 5000 and 500 members. (A
      parsed line never carries a step number beside a step name, and its level
      is upper case.) */
  lemma StructuredCapsHold(sets: Sets<Member>, m: Member, score: int, index: string, component: string, r: LogRecord)
    requires Structured(component, r) && r.step.None? && r.level in LevelWords
    ensures var after := ApplyPuts(sets, PutsUnder(index, component, r), m, score);
      var allKey := index + ":" + r.refreshId.value + ":all";
      var stepLevelKey := index + ":" + r.refreshId.value + ":" + r.stepName.value + ":level:" + r.level;
      && allKey in after && |after[allKey]| <= RefreshCap
      && stepLevelKey in after && |after[stepLevelKey]| <= StepLevelCap
  {
    var rid, step := r.refreshId.value, r.stepName.value;
    var allKey := index + ":" + rid + ":all";
    var stepLevelKey := index + ":" + rid + ":" + step + ":level:" + r.level;
    var puts := PutsUnder(index, component, r);
    var legacy := LegacyPuts(index, r);
    assert |legacy| == 1;
    assert puts == StructuredPuts(index, component, r) + CommonPuts(index, r) + legacy;
    assert puts[1] == Put(allKey, Some(RefreshCap)) && puts[2] == Put(stepLevelKey, Some(StepLevelCap));
    assert puts[3].key == index && puts[4].key == index + ":level:" + r.level;
    assert puts[5].key == index + ":refresh:" + rid && |puts| == 6;
    StructuredKeysDistinct(index, rid, step, r.level);
    forall j | 2 < j < |puts| ensures puts[j].key != puts[2].key {
      assert j == 3 || j == 4 || j == 5;
    }
    CapHolds(sets, puts, m, score, 2);
    forall j | 1 < j < |puts| ensures puts[j].key != puts[1].key {
      assert j == 2 || j == 3 || j == 4 || j == 5;
    }
    CapHolds(sets, puts, m, score, 1);
  }

  /** The step set of a structured entry holds at most 1000 members whenever
      its key is named by no later uncapped or larger-capped group: unless the
      step name is `all` (the key is then the refresh-wide key, capped at 5000)
      or the key coincides with the legacy refresh key. When the refresh id is
      `level` and the step name is the entry's level, the key is the level key,
      whose cap is also 1000. */
  lemma StepCapHolds(sets: Sets<Member>, m: Member, score: int, index: string, component: string, r: LogRecord)
    requires Structured(component, r) && r.step.None? && r.level in LevelWords
    requires var rid, step := r.refreshId.value, r.stepName.value;
      && index + ":" + rid + ":" + step != index + ":" + rid + ":all"
      && index + ":" + rid + ":" + step != index + ":refresh:" + rid
    ensures var stepKey := index + ":" + r.refreshId.value + ":" + r.stepName.value;
      var after := ApplyPuts(sets, PutsUnder(index, component, r), m, score);
      stepKey in after && |after[stepKey]| <= StepCap
  {
    var rid, step := r.refreshId.value, r.stepName.value;
    var stepKey := index + ":" + rid + ":" + step;
    var puts := PutsUnder(index, component, r);
    var legacy := LegacyPuts(index, r);
    assert |legacy| == 1;
    assert puts == StructuredPuts(index, component, r) + CommonPuts(index, r) + legacy;
    assert puts[0] == Put(stepKey, Some(StepCap)) && |puts| == 6;
    assert puts[1].key == index + ":" + rid + ":all";
    assert puts[2].key == stepKey + ":level:" + r.level && puts[3].key == index;
    assert puts[4] == Put(index + ":level:" + r.level, Some(LevelCap));
    assert puts[5].key == index + ":refresh:" + rid;
    if stepKey == puts[4].key {
      forall j | 4 < j < |puts| ensures puts[j].key != puts[4].key {
        assert j == 5;
      }
      CapHolds(sets, puts, m, score, 4);
    } else {
      forall j | 0 < j < |puts| ensures puts[j].key != puts[0].key {
        assert j == 1 || j == 2 || j == 3 || j == 4 || j == 5;
        assert |puts[2].key| > |stepKey| > |index|;
      }
      CapHolds(sets, puts, m, score, 0);
    }
  }

  /** When the step key of a structured entry is also its legacy refresh key,
      the uncapped `ZADD` that follows the trim puts back an entry the trim
      evicted: a full step set whose entries all outrank the new one ends with
      1001 members. */
  lemma StepCapOverflows(sets: Sets<Member>, m: Member, score: int, index: string, component: string, r: LogRecord)
    requires Structured(component, r) && r.step.None? && r.level in LevelWords
    requires var rid, step := r.refreshId.value, r.stepName.value;
      index + ":" + rid + ":" + step == index + ":refresh:" + rid
    requires var stepKey := index + ":" + r.refreshId.value + ":" + r.stepName.value;
      && |SetAt(sets, stepKey)| == StepCap
      && forall e :: e in SetAt(sets, stepKey) ==> e.member != m && score < e.score
    ensures var stepKey := index + ":" + r.refreshId.value + ":" + r.stepName.value;
      var after := ApplyPuts(sets, PutsUnder(index, component, r), m, score);
      stepKey in after && |after[stepKey]| == StepCap + 1
  {
    var rid, step := r.refreshId.value, r.stepName.value;
    var stepKey := index + ":" + rid + ":" + step;
    var puts := PutsUnder(index, component, r);
    var legacy := LegacyPuts(index, r);
    assert |legacy| == 1;
    assert puts == StructuredPuts(index, component, r) + CommonPuts(index, r) + legacy;
    assert puts[0] == Put(stepKey, Some(StepCap)) && |puts| == 6;
    assert puts[5] == Put(stepKey, None);
    StructuredKeysDistinct(index, rid, step, r.level);
    assert puts[2].key == stepKey + ":level:" + r.level && puts[3].key == index;
    assert puts[4].key != stepKey by {
      assert (index + ":level:" + r.level)[|index| + 1] == 'l';
      assert stepKey[|index| + 1] == 'r';
    }
    forall j | 0 < j < |puts| - 1 ensures puts[j].key != stepKey {
      assert j == 1 || j == 2 || j == 3 || j == 4;
      assert |puts[2].key| > |stepKey| > |index|;
    }
    EvictedThenReadded(sets, puts, m, score, stepKey, StepCap);
  }

  /** A refresh id and a step name both equal to `refresh` make the step key
      the legacy refresh key. */
  lemma RefreshStepCollides(index: string)
    ensures var rid, step := "refresh", "refresh";
      index + ":" + rid + ":" + step == index + ":refresh:" + rid
  {
  }

  /** The refresh-wide key and the step-level key of a structured entry differ
      from each other and from the primary, level and legacy refresh keys: the
      refresh-wide key ends in a lower-case letter where the level key ends in
      an upper-case one, and every other pair differs in length. */
  lemma StructuredKeysDistinct(index: string, rid: string, step: string, level: string)
    requires |step| >= 1 && level in LevelWords
    ensures var allKey := index + ":" + rid + ":all";
      var stepLevelKey := index + ":" + rid + ":" + step + ":level:" + level;
      && allKey != stepLevelKey && allKey != index && allKey != index + ":level:" + level
      && allKey != index + ":refresh:" + rid
      && stepLevelKey != index && stepLevelKey != index + ":level:" + level
      && stepLevelKey != index + ":refresh:" + rid
  {
    var allKey := index + ":" + rid + ":all";
    var levelKey := index + ":level:" + level;
    assert allKey[|allKey| - 1] == 'l';
    assert levelKey[|levelKey| - 1] == level[|level| - 1];
  }

  /** A stored entry leaves every sorted set well formed. */
  lemma StoreKeepsSetsValid(db: Db, s: Settings, host: string, app: string, component: string, r: LogRecord)
    requires AllValid(db.zsets)
    ensures AllValid(StoreEntry(db, s, host, app, component, r).zsets)
  {
    var index := IndexKey(host, app, component);
    var puts := FanOut(host, app, component, r);
    var st, legacy := StructuredPuts(index, component, r), LegacyPuts(index, r);
    assert forall j :: 0 <= j < |puts| ==> puts[j].cap != Some(0) by {
      assert forall j :: |st| + 2 <= j < |puts| ==> puts[j] == legacy[j - |st| - 2];
    }
    ApplyPutsValid(db.zsets, puts, Doc(CleanEntry(r)), Score(r));
  }

  /** Each stored entry counts once in `total_logs` and once under its level;
      no other counter and no other statistics hash changes. */
  lemma StatsCounted(stats: map<string, map<string, int>>, key: string, level: string)
    requires level in LevelWords
    ensures var h := if key in stats then stats[key] else map[];
      var after := BumpStats(stats, key, level);
      && after.Keys == stats.Keys + {key}
      && (forall k :: k in stats && k != key ==> after[k] == stats[k])
      && after[key]["total_logs"] == (if "total_logs" in h then h["total_logs"] else 0) + 1
      && after[key]["level_" + level] == (if "level_" + level in h then h["level_" + level] else 0) + 1
      && (forall f :: f in h && f != "total_logs" && f != "level_" + level ==> after[key][f] == h[f])
  {
    assert ("level_" + level)[0] == 'l';
  }

  /** The legacy refresh set of an entry outside the structured sets is never
      trimmed: it ends as `ZADD` of the new entry to what it held. */
  lemma LegacyRefreshUntrimmed(sets: Sets<Member>, m: Member, score: int, index: string, component: string, r: LogRecord)
    requires !Structured(component, r) && Truthy(r.refreshId)
    ensures var key := index + ":refresh:" + r.refreshId.value;
      var after := ApplyPuts(sets, PutsUnder(index, component, r), m, score);
      key in after && after[key] == ZAdd(SetAt(sets, key), m, score)
  {
    var key := index + ":refresh:" + r.refreshId.value;
    var puts := PutsUnder(index, component, r);
    var legacy := LegacyPuts(index, r);
    assert puts == CommonPuts(index, r) + legacy;
    assert puts[2] == legacy[0] && puts[2] == Put(key, None);
    assert key[|index| + 1] == 'r';
    assert (index + ":level:" + r.level)[|index| + 1] == 'l';
    forall j | 2 < j < |puts| ensures puts[j].key != key {
      assert puts[j] == legacy[1];
    }
    forall j | 0 <= j < 2 ensures puts[..2][j].key != key {
      assert puts[..2][j] == puts[j];
    }
    LastPutDecides(sets, puts, m, score, 2);
    UntouchedKey(sets, puts[..2], m, score, key);
  }

  // ---------------------------------------------------------------- one file

  /** What `os.stat` and `readlines()` give for a file: its size, its
      modification time (as an instant and as the text `str(st_mtime)`), and
      its lines, each with its line break. */
  datatype FileInfo = FileInfo(size: int, mtime: Instant, mtimeText: string, lines: seq<string>)

  /** The lines kept from a long file: `lines[-max_lines_per_file:]` when there
      are more than the maximum. */
  function KeptLines(s: Settings, lines: seq<string>): (kept: seq<string>)
    ensures s.maxLinesPerFile >= 1 ==> |kept| <= s.maxLinesPerFile || kept == lines
    ensures |lines| <= s.maxLinesPerFile ==> kept == lines
    ensures s.maxLinesPerFile >= 1 && |lines| > s.maxLinesPerFile ==>
      kept == lines[|lines| - s.maxLinesPerFile..]
    ensures s.maxLinesPerFile == 0 ==> kept == lines
    ensures s.maxLinesPerFile < 0 ==> kept == lines[if -s.maxLinesPerFile <= |lines| then -s.maxLinesPerFile else |lines|..]
  {
    if |lines| > s.maxLinesPerFile then
      PyDropNegative(lines, if s.maxLinesPerFile >= 0 then s.maxLinesPerFile else 0);
      PyDrop(lines, -s.maxLinesPerFile)
    else lines
  }

  /** The entries of the reversed line list `rev`, stored in turn: blank lines
      are skipped, and a line's number is its position in `rev`. */
  function StoreLines(db: Db, s: Settings, path: Path, host: string, clock: Clock, rev: seq<string>): (Db, nat)
    decreases |rev|
  {
    if rev == [] then (db, 0)
    else
      var i := |rev| - 1;
      StoreStep(StoreLines(db, s, path, host, clock, rev[..i]), s, path, host, clock, rev[i], i)
  }

  /** One pass of the loop over the lines: a blank line is skipped, any other
      is stored and counted. */
  function StoreStep(acc: (Db, nat), s: Settings, path: Path, host: string, clock: Clock, line: string, i: nat): (Db, nat) {
    if Strip(line) == "" then acc else (StoreLine(acc.0, s, path, host, clock, line, i), acc.1 + 1)
  }

  /** One non-blank line parsed and stored. */
  function StoreLine(db: Db, s: Settings, path: Path, host: string, clock: Clock, line: string, i: nat): Db {
    StoreEntry(db, s, host, AppName(path), ComponentName(path), ParseLogLine(clock, line, path, i))
  }

  /** `_parse_and_store_file`: nothing for a file over the size limit, else the
      kept lines, newest first. */
  function StoreFile(db: Db, s: Settings, path: Path, host: string, info: FileInfo, clock: Clock): (r: (Db, nat)) {
    if info.size > s.maxFileSize then (db, 0)
    else StoreLines(db, s, path, host, clock, Reverse(KeptLines(s, info.lines)))
  }

  /** The number of lines that are not blank. */
  function NonBlank(lines: seq<string>): (n: nat)
    ensures n <= |lines|
  {
    if lines == [] then 0
    else NonBlank(lines[..|lines| - 1]) + (if Strip(lines[|lines| - 1]) == "" then 0 else 1)
  }

  /** Storing never touches the file metadata hashes, and the count is the
      number of non-blank lines. */
  lemma {:induction false} StoreLinesCount(db: Db, s: Settings, path: Path, host: string, clock: Clock, rev: seq<string>)
    ensures StoreLines(db, s, path, host, clock, rev).1 == NonBlank(rev)
    ensures StoreLines(db, s, path, host, clock, rev).0.hashes == db.hashes
    decreases |rev|
  {
    if rev != [] {
      StoreLinesCount(db, s, path, host, clock, rev[..|rev| - 1]);
    }
  }

  /** A file holds at most `max_lines_per_file` entries' worth of lines, and a
      file over the size limit stores nothing. */
  lemma StoreFileBounds(db: Db, s: Settings, path: Path, host: string, info: FileInfo, clock: Clock)
    ensures info.size > s.maxFileSize ==> StoreFile(db, s, path, host, info, clock) == (db, 0)
    ensures StoreFile(db, s, path, host, info, clock).1 <= |info.lines|
    ensures s.maxLinesPerFile >= 1 ==> StoreFile(db, s, path, host, info, clock).1 <= s.maxLinesPerFile
    ensures StoreFile(db, s, path, host, info, clock).0.hashes == db.hashes
    ensures info.size <= s.maxFileSize ==> StoreFile(db, s, path, host, info, clock).1 == NonBlank(KeptLines(s, info.lines))
    ensures info.size <= s.maxFileSize && s.maxLinesPerFile == 0 ==> StoreFile(db, s, path, host, info, clock).1 == NonBlank(info.lines)
  {
    var kept := KeptLines(s, info.lines);
    StoreLinesCount(db, s, path, host, clock, Reverse(kept));
    NonBlankReverse(kept);
    assert |kept| <= |info.lines|;
  }

  /** Counting the non-blank lines does not depend on their order. */
  lemma {:induction false} NonBlankReverse(lines: seq<string>)
    ensures NonBlank(Reverse(lines)) == NonBlank(lines)
    decreases |lines|
  {
    if lines != [] {
      var r := Reverse(lines);
      assert r[..|r| - 1] == Reverse(lines[1..]);
      NonBlankReverse(lines[1..]);
      NonBlankFirst(lines);
    }
  }

  /** `NonBlank` counted from the front. */
  lemma {:induction false} NonBlankFirst(lines: seq<string>)
    requires lines != []
    ensures NonBlank(lines) == NonBlank(lines[1..]) + (if Strip(lines[0]) == "" then 0 else 1)
    decreases |lines|
  {
    if |lines| > 1 {
      var n := |lines|;
      var init, tail := lines[..n - 1], lines[1..];
      assert init[1..] == tail[..n - 2];
      assert tail[n - 2] == lines[n - 1] && init[0] == lines[0];
      assert NonBlank(tail) == NonBlank(tail[..n - 2]) + (if Strip(lines[n - 1]) == "" then 0 else 1);
      assert NonBlank(lines) == NonBlank(init) + (if Strip(lines[n - 1]) == "" then 0 else 1);
      NonBlankFirst(init);
    } else {
      assert lines[..0] == [] && lines[1..] == [];
    }
  }

  /** `_get_file_hash`, with the digest left out: the text that is hashed. */
  function FileHash(path: Path, info: FileInfo): string {
    Str(path) + ":" + IntToString(info.size) + ":" + info.mtimeText
  }

  /** A file whose size or modification time changed gets a different
      metadata key, so it is processed again. */
  lemma ChangedFileNewHash(path: Path, a: FileInfo, b: FileInfo)
    requires a.size != b.size || a.mtimeText != b.mtimeText
    ensures FileHash(path, a) != FileHash(path, b)
  {
    if FileHash(path, a) == FileHash(path, b) {
      var p := Str(path) + ":";
      var ta, tb := IntToString(a.size) + ":" + a.mtimeText, IntToString(b.size) + ":" + b.mtimeText;
      assert p + ta == FileHash(path, a) && p + tb == FileHash(path, b);
      SuffixCancel(p, ta, tb);
      ColonSplit(IntToString(a.size), a.mtimeText, IntToString(b.size), b.mtimeText);
      IntToStringInjective(a.size, b.size);
    }
  }

  /** `x + ":" + y` determines `x` and `y` when `x` holds no colon. */
  lemma ColonSplit(x: string, y: string, x2: string, y2: string)
    requires ':' !in x && ':' !in x2 && x + ":" + y == x2 + ":" + y2
    ensures x == x2 && y == y2
  {
    var s := x + ":" + y;
    assert s[..|x|] == x && s[|x|] == ':';
    IndexOfUnique(s, ':', |x|);
    assert s[..|x2|] == x2 && s[|x2|] == ':';
    IndexOfUnique(s, ':', |x2|);
    assert x == s[..|x|] == x2;
    assert y == s[|x| + 1..] == y2;
  }

  /** `key + a == key + b` determines `a`. */
  lemma SuffixCancel(key: string, a: string, b: string)
    requires key + a == key + b
    ensures a == b
  {
    assert a == (key + a)[|key|..];
    assert b == (key + b)[|key|..];
  }

  /** The metadata hash of a file, empty when there is none. */
  function MetaOf(db: Db, key: string): map<string, string> {
    if key in db.hashes then db.hashes[key] else map[]
  }

  /** `_process_file_task` skips a file whose metadata records a processing
      time no earlier than the file's modification time. */
  predicate AlreadyProcessed(meta: map<string, string>, info: FileInfo, clock: Clock) {
    "processed_at" in meta && meta["processed_at"] != ""
    && var t := clock.parse(FromIso, meta["processed_at"]);
    t.Some? && info.mtime.micros <= t.value.micros
  }

  /** A recorded processing time that does not parse makes the task fail
      before anything is written. */
  predicate UnreadableStamp(meta: map<string, string>, clock: Clock) {
    "processed_at" in meta && meta["processed_at"] != "" && clock.parse(FromIso, meta["processed_at"]).None?
  }

  /** `_process_file_task` for a task naming `filePath` (after `Path()`
      normalisation) under `host`; `fs` is what `stat` and `open` see. A file
      that cannot be examined, or whose metadata cannot be read, is left alone. */
  function ProcessTask(db: Db, s: Settings, filePath: string, host: string, fs: map<string, FileInfo>,
                       clock: Clock, workerId: nat): (r: Db)
    ensures var path := ParsePath(filePath);
      Str(path) in fs && !AlreadyProcessed(MetaOf(db, MetaKey(host, FileHash(path, fs[Str(path)]))), fs[Str(path)], clock)
      && !UnreadableStamp(MetaOf(db, MetaKey(host, FileHash(path, fs[Str(path)]))), clock)
      ==> Recorded(db, r, s, path, host, fs[Str(path)], clock, workerId)
    ensures var path := ParsePath(filePath);
      Str(path) !in fs
      || AlreadyProcessed(MetaOf(db, MetaKey(host, FileHash(path, fs[Str(path)]))), fs[Str(path)], clock)
      || UnreadableStamp(MetaOf(db, MetaKey(host, FileHash(path, fs[Str(path)]))), clock)
      ==> r == db
  {
    var path := ParsePath(filePath);
    if Str(path) !in fs then db
    else
      var info := fs[Str(path)];
      var meta := MetaOf(db, MetaKey(host, FileHash(path, info)));
      if UnreadableStamp(meta, clock) || AlreadyProcessed(meta, info, clock) then db
      else RecordFile(db, s, path, host, info, clock, workerId)
  }

  /** What processing a file leaves in its metadata hash: the time, the number
      of entries stored, the worker, the path and the size, with the hash's
      expiry set to the log retention. */
  predicate Recorded(db: Db, r: Db, s: Settings, path: Path, host: string, info: FileInfo, clock: Clock, workerId: nat) {
    var metaKey := MetaKey(host, FileHash(path, info));
    var meta := MetaOf(r, metaKey);
    && "processed_at" in meta && meta["processed_at"] == clock.now.iso
    && "logs_count" in meta && AllDigits(meta["logs_count"])
    && ParseNat(meta["logs_count"]) == StoreFile(db, s, path, host, info, clock).1
    && "worker_id" in meta && AllDigits(meta["worker_id"]) && ParseNat(meta["worker_id"]) == workerId
    && "file_path" in meta && meta["file_path"] == Str(path)
    && "file_size" in meta && meta["file_size"] == IntToString(info.size)
    && metaKey in r.ttl && r.ttl[metaKey] == s.logTtl
  }

  /** Storing a file's entries and recording it in its metadata hash. */
  function RecordFile(db: Db, s: Settings, path: Path, host: string, info: FileInfo, clock: Clock, workerId: nat): (r: Db)
    ensures Recorded(db, r, s, path, host, info, clock, workerId)
  {
    var metaKey := MetaKey(host, FileHash(path, info));
    var meta := MetaOf(db, metaKey);
    var (d, n) := StoreFile(db, s, path, host, info, clock);
    StoreFileBounds(db, s, path, host, info, clock);
    ParseNatToString(n);
    ParseNatToString(workerId);
    var fields := MetaFields(path, info, clock, n, workerId);
    var r := d.(hashes := d.hashes[metaKey := meta + fields], ttl := d.ttl[metaKey := s.logTtl]);
    assert MetaOf(r, metaKey) == meta + fields;
    r
  }

  /** The fields `hset` writes into a file's metadata hash. */
  function MetaFields(path: Path, info: FileInfo, clock: Clock, count: nat, workerId: nat): (f: map<string, string>)
    ensures f.Keys == {"file_path", "file_size", "processed_at", "logs_count", "worker_id"}
    ensures f["file_path"] == Str(path) && f["file_size"] == IntToString(info.size)
    ensures f["processed_at"] == clock.now.iso
    ensures f["logs_count"] == NatToString(count) && f["worker_id"] == NatToString(workerId)
  {
    map["file_path" := Str(path), "file_size" := IntToString(info.size), "processed_at" := clock.now.iso,
        "logs_count" := NatToString(count), "worker_id" := NatToString(workerId)]
  }

  /** Processing an unchanged file a second time does nothing, once the
      recorded processing time reads back as an instant no earlier than the
      file's modification time. */
  lemma ReprocessingIsNoOp(db: Db, s: Settings, filePath: string, host: string, fs: map<string, FileInfo>,
                           first: Clock, second: Clock, w1: nat, w2: nat)
    requires first.now.iso != "" && second.parse == first.parse
    requires var t := first.parse(FromIso, first.now.iso);
      t.Some? && forall k :: k in fs ==> fs[k].mtime.micros <= t.value.micros
    ensures var once := ProcessTask(db, s, filePath, host, fs, first, w1);
      ProcessTask(once, s, filePath, host, fs, second, w2) == once
  {
    var path := ParsePath(filePath);
    if Str(path) in fs {
      var info := fs[Str(path)];
      var metaKey := MetaKey(host, FileHash(path, info));
      var once := ProcessTask(db, s, filePath, host, fs, first, w1);
      var meta := MetaOf(db, metaKey);
      if !(UnreadableStamp(meta, first) || AlreadyProcessed(meta, info, first)) {
        assert MetaOf(once, metaKey)["processed_at"] == first.now.iso;
        assert AlreadyProcessed(MetaOf(once, metaKey), info, second);
      }
    }
  }
}
