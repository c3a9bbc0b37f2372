/** The older list-based log processor: the path-prefix host and application
    map, the line-format parser, the keyword level and component classifiers,
    the capped Redis lists it writes and the paginate-then-filter reads. */
module LegacyProcessor {
  import opened Wrappers
  import opened Text
  import opened PySeq
  import opened Paths
  import opened Store
  import opened Regex
  import opened Timestamps

  /** A parsed line, as the dictionary `_parse_log_line` builds. */
  datatype Entry = Entry(timestamp: string, host: string, application: string, component: string,
                         level: string, message: string, filePath: string, rawLine: string)

  // ------------------------------------------------------------ host and application

  /** One `path_mappings` item: a directory prefix, its host and the host's applications. */
  datatype Mapping = Mapping(prefix: string, host: string, apps: seq<string>)

  /** `path_mappings`, in dictionary order. */
  const PathMappings: seq<Mapping> := [
    Mapping("/var/log/centralized/ssdev/", "ssdev", ["sports-scheduler", "auto-scraper", "nginx", "gunicorn"]),
    Mapping("/var/log/centralized/ssdvr/", "ssdvr", ["ssdvr", "channels-dvr", "nginx"]),
    Mapping("/var/log/centralized/ssmcp/", "ssmcp", ["ansible", "git", "nginx"]),
    Mapping("/var/log/centralized/ssrun/", "ssrun", ["github-runner", "docker", "nginx"]),
    Mapping("/var/log/centralized/sslog/", "sslog", ["logging-server", "nginx", "redis"])
  ]

  /** The application a file of a mapped host belongs to: the first listed one
      whose name occurs in the lower-cased file name, else the host's first. */
  function AppForName(apps: seq<string>, name: string): (app: string)
    requires apps != []
    ensures app in apps
    ensures (exists i :: (0 <= i < |apps| && apps[i] == app && Contains(name, app)
                          && forall j :: 0 <= j < i ==> !Contains(name, apps[j])))
            || (app == apps[0] && forall j :: 0 <= j < |apps| ==> !Contains(name, apps[j]))
  {
    var j := FirstContainedIndex(name, apps);
    if j < |apps| then apps[j] else apps[0]
  }

  /** `_get_host_application(file_path)`. */
  function HostApplication(filePath: string): (r: (string, string))
  {
    var k := FirstWhere(PathMappings, (m: Mapping) => StartsWith(filePath, m.prefix));
    if k == |PathMappings| then ("unknown", "unknown")
    else AppOfMapping(PathMappings[k], filePath)
  }

  /** The host of a mapping whose prefix the path starts with, and the application
      its file name selects. */
  function AppOfMapping(m: Mapping, filePath: string): (r: (string, string))
    requires m.apps != []
  {
    (m.host, AppForName(m.apps, Lower(Name(ParsePath(filePath)))))
  }

  /** The five prefixes have the same length and differ, so a path starts with
      at most one of them. */
  lemma PrefixesExclusive(filePath: string, k1: nat, k2: nat)
    requires k1 < |PathMappings| && k2 < |PathMappings|
    requires StartsWith(filePath, PathMappings[k1].prefix) && StartsWith(filePath, PathMappings[k2].prefix)
    ensures k1 == k2
  {
    assert |PathMappings[k1].prefix| == |PathMappings[k2].prefix| == 27;
    assert PathMappings[k1].prefix == filePath[..27] == PathMappings[k2].prefix;
  }

  /** A path under no prefix is `unknown`/`unknown`; a path under a prefix gets
      that prefix's host and the application its file name selects. */
  lemma HostApplicationSpec(filePath: string)
    ensures (forall k :: 0 <= k < |PathMappings| ==> !StartsWith(filePath, PathMappings[k].prefix))
      ==> HostApplication(filePath) == ("unknown", "unknown")
    ensures forall k :: (0 <= k < |PathMappings| && StartsWith(filePath, PathMappings[k].prefix)
      ==> HostApplication(filePath) == AppOfMapping(PathMappings[k], filePath))
  {
    var first := FirstWhere(PathMappings, (m: Mapping) => StartsWith(filePath, m.prefix));
    forall k | 0 <= k < |PathMappings| && StartsWith(filePath, PathMappings[k].prefix)
      ensures HostApplication(filePath) == AppOfMapping(PathMappings[k], filePath)
    {
      PrefixesExclusive(filePath, first, k);
    }
  }

  /** The host is `unknown` exactly when the application is; otherwise the
      application is one the host's mapping lists. */
  lemma HostApplicationListed(filePath: string)
    ensures var (host, app) := HostApplication(filePath);
      && (host == "unknown" <==> app == "unknown")
      && (host != "unknown" ==> exists k :: 0 <= k < |PathMappings| && PathMappings[k].host == host && app in PathMappings[k].apps)
      && (app in {"sports-scheduler", "auto-scraper"} ==> host == "ssdev")
  {
    var first := FirstWhere(PathMappings, (m: Mapping) => StartsWith(filePath, m.prefix));
    if first < |PathMappings| {
      MappingFacts(first);
    }
  }

  /** No mapping names `unknown`, and only `ssdev` lists the two applications
      with component tables. */
  lemma MappingFacts(k: nat)
    requires k < |PathMappings|
    ensures "unknown" !in PathMappings[k].apps && PathMappings[k].host != "unknown"
    ensures "sports-scheduler" in PathMappings[k].apps || "auto-scraper" in PathMappings[k].apps
      ==> PathMappings[k].host == "ssdev"
  {
    if k == 0 {
    } else if k == 1 {
    } else if k == 2 {
    } else if k == 3 {
    } else {
    }
  }

  // ------------------------------------------------------------------------ levels

  const ErrorKeys: seq<string> := ["ERROR", "FAIL", "EXCEPTION", "CRITICAL"]
  const WarningKeys: seq<string> := ["WARN", "WARNING"]
  const DebugKeys: seq<string> := ["DEBUG", "TRACE"]

  /** The four levels `_extract_log_level` can answer. */
  const Levels: set<string> := {"ERROR", "WARNING", "DEBUG", "INFO"}

  /** `_extract_log_level(message)`: keywords in the upper-cased message, in the
      priority ERROR, WARNING, DEBUG, with INFO otherwise. */
  function ExtractLevel(message: string): (level: string)
    ensures level in Levels
  {
    var u := Upper(message);
    if ContainsAny(u, ErrorKeys) then "ERROR"
    else if ContainsAny(u, WarningKeys) then "WARNING"
    else if ContainsAny(u, DebugKeys) then "DEBUG"
    else "INFO"
  }

  /** Each level is answered exactly when its keywords occur and no
      higher-priority keyword does; `WARNING` adds nothing to `WARN`. */
  lemma ExtractLevelPriority(message: string)
    ensures var u := Upper(message); var level := ExtractLevel(message);
      && (level == "ERROR" <==> ContainsAny(u, ErrorKeys))
      && (level == "WARNING" <==> !ContainsAny(u, ErrorKeys) && Contains(u, "WARN"))
      && (level == "DEBUG" <==> !ContainsAny(u, ErrorKeys) && !Contains(u, "WARN") && ContainsAny(u, DebugKeys))
  {
    var u := Upper(message);
    assert WarningKeys[0] == "WARN";
    if Contains(u, "WARNING") {
      var i :| 0 <= i <= |u| - 7 && OccursAt(u, "WARNING", i);
      assert u[i..i + 4] == u[i..i + 7][..4];
      ContainsAt(u, "WARN", i);
    }
  }

  /** Upper-casing the lower-cased text is upper-casing the text. */
  lemma UpperOfLower(s: string)
    ensures Upper(Lower(s)) == Upper(s)
  {
    forall i | 0 <= i < |s| ensures Upper(Lower(s))[i] == Upper(s)[i] {
      assert Lower(s)[i] == LowerChar(s[i]);
    }
  }

  /** A word found in a text is found, upper-cased, in the upper-cased text. */
  lemma ContainsUpper(s: string, w: string)
    requires Contains(s, w)
    ensures Contains(Upper(s), Upper(w))
  {
    var i :| 0 <= i <= |s| - |w| && OccursAt(s, w, i);
    assert Upper(s)[i..i + |w|] == Upper(w) by {
      forall j | 0 <= j < |w| ensures Upper(s)[i..i + |w|][j] == Upper(w)[j] {
        assert s[i + j] == w[j];
      }
    }
    ContainsAt(Upper(s), Upper(w), i);
  }

  /** The level does not depend on the case of the message. */
  lemma LevelIgnoresCase(message: string)
    ensures ExtractLevel(Lower(message)) == ExtractLevel(message)
  {
    UpperOfLower(message);
  }

  // ------------------------------------------------------------------ line formats

  /** `.+$` at the start of `u`: a non-empty run of characters other than a line
      break that reaches the end of `u`, or a line break that ends `u`. */
  function LineRest(u: string): (r: Option<string>)
    ensures r.Some? ==> r.value != [] && '\n' !in r.value && (u == r.value || u == r.value + "\n")
  {
    var d := RunLength(u, Dot);
    var r := if d >= 1 && (d == |u| || (d == |u| - 1 && u[d] == '\n')) then Some(u[..d]) else None;
    assert r.Some? ==> '\n' !in r.value by {
      if r.Some? {
        forall k | 0 <= k < |r.value| ensures r.value[k] != '\n' {
          assert r.value[k] == u[k] && Dot(u[k]);
        }
      }
    }
    assert r.Some? && d < |u| ==> u == r.value + "\n";
    r
  }

  /** A non-empty text without a line break is all of `.+$`. */
  lemma LineRestWhole(u: string)
    requires u != [] && '\n' !in u
    ensures LineRest(u) == Some(u)
  {
    assert forall k :: 0 <= k < |u| ==> Dot(u[k]) by {
      forall k | 0 <= k < |u| ensures Dot(u[k]) {
        assert u[k] in u;
      }
    }
    RunLengthExact(u, Dot, |u|);
    assert u[..|u|] == u;
  }

  /** A one-line text followed by a final line break: `.+$` stops before the break. */
  lemma LineRestBeforeBreak(u: string)
    requires |u| >= 2 && u[|u| - 1] == '\n' && '\n' !in u[..|u| - 1]
    ensures LineRest(u) == Some(u[..|u| - 1])
  {
    var m := u[..|u| - 1];
    assert forall k :: 0 <= k < |m| ==> Dot(u[k]) by {
      forall k | 0 <= k < |m| ensures Dot(u[k]) {
        assert u[k] == m[k] && m[k] in m;
      }
    }
    RunLengthExact(u, Dot, |m|);
  }

  /** How many of the first `k` characters the greedy `\s+` of `\s+(.+)$` ends up
      holding: the largest count that leaves a `.+$` match behind, or 0 when no
      count does. */
  function SpacedCut(u: string, k: nat): (j: nat)
    requires k <= |u|
    ensures j <= k
    ensures j >= 1 ==> LineRest(u[j..]).Some?
    ensures j == 0 ==> forall i {:trigger LineRest(u[i..])} :: 1 <= i <= k ==> LineRest(u[i..]).None?
    decreases k
  {
    if k == 0 then 0
    else if LineRest(u[k..]).Some? then k
    else SpacedCut(u, k - 1)
  }

  /** `\s+(.+)$` anchored at the start of `u`: what `.+` captures. */
  function RestAfterSpaces(u: string): Option<string> {
    var j := SpacedCut(u, SpaceRun(u));
    if j == 0 then None else LineRest(u[j..])
  }

  /** A single space before a one-line message that does not start with a space:
      the message is what `\s+(.+)$` captures. */
  lemma RestAfterOneSpace(m: string)
    requires m != [] && '\n' !in m && !IsSpace(m[0])
    ensures RestAfterSpaces(" " + m) == Some(m)
  {
    var u := " " + m;
    RunLengthExact(u, IsSpace, 1);
    assert u[1..] == m;
  }

  /** The rsyslog timestamp `\d{4}-\d{2}-\d{2}T\d{2}:\d{2}:\d{2}\.\d+[+-]\d{2}:\d{2}`
      (RFC 3339 section 5.6 with a mandatory fraction and a numeric offset). */
  predicate RsyslogStamp(ts: string) {
    |ts| >= 27 && FitsShape(ts, 0, IsoShape) && ts[19] == '.' && AllDigits(ts[20..|ts| - 6])
    && OffsetAt(ts, |ts| - 6)
  }

  /** The length of the rsyslog timestamp at the start of the line, if there is
      one; the greedy fraction cannot backtrack, since a digit cannot stand where
      the offset sign must. */
  function RsyslogStampLen(line: string): (n: Option<nat>)
    ensures n.Some? ==> n.value <= |line| && RsyslogStamp(line[..n.value])
  {
    if FitsShape(line, 0, IsoShape) then
      var f := FractionLen(line, 19);
      if f > 0 && OffsetAt(line, 19 + f) then
        var ts := line[..25 + f];
        assert ts[20..|ts| - 6] == line[19..19 + f][1..];
        assert FitsShape(ts, 0, IsoShape) by {
          forall k | 0 <= k < |IsoShape| ensures CharFits(ts[k], IsoShape[k]) {
            assert ts[k] == line[k];
          }
        }
        assert OffsetAt(ts, |ts| - 6) by {
          forall k | 0 <= k < |OffsetShape| ensures CharFits(ts[|ts| - 5 + k], OffsetShape[k]) {
            assert ts[|ts| - 5 + k] == line[20 + f + k];
          }
        }
        Some(25 + f)
      else None
    else None
  }

  /** A well-formed rsyslog timestamp is found in full whatever follows it. */
  lemma RsyslogStampFound(ts: string, rest: string)
    requires RsyslogStamp(ts)
    ensures RsyslogStampLen(ts + rest) == Some(|ts|)
  {
    var line := ts + rest;
    assert FitsShape(line, 0, IsoShape) by {
      forall k | 0 <= k < |IsoShape| ensures CharFits(line[k], IsoShape[k]) {
        assert line[k] == ts[k];
      }
    }
    var d := |ts| - 26;
    assert forall k :: 0 <= k < d ==> line[20..][k] == ts[20 + k] && IsDigit(ts[20..|ts| - 6][k]);
    RunLengthExact(line[20..], IsDigit, d);
    assert FractionLen(line, 19) == 1 + d;
    assert OffsetAt(line, 20 + d) by {
      assert line[20 + d] == ts[|ts| - 6];
      forall k | 0 <= k < |OffsetShape| ensures CharFits(line[21 + d + k], OffsetShape[k]) {
        assert line[21 + d + k] == ts[|ts| - 5 + k];
      }
    }
  }

  /** The rsyslog form `^(stamp)\s+(.+)$`: the timestamp and the message. */
  function RsyslogMatch(line: string): Option<(string, string)> {
    match RsyslogStampLen(line)
    case None => None
    case Some(n) =>
      match RestAfterSpaces(line[n..])
      case None => None
      case Some(m) => Some((line[..n], m))
  }

  const DateShape: string := "DDDD-DD-DD"
  const TimeShape: string := "DD:DD:DD"

  /** `\[(\d{4}-\d{2}-\d{2}\s+\d{2}:\d{2}:\d{2})\]` at the start of the line: the
      number of spaces inside the brackets, if the bracketed stamp is there. */
  function AppStampSpaces(line: string): Option<nat> {
    if |line| >= 11 && line[0] == '[' && FitsShape(line, 1, DateShape) then
      var sp := SpaceRun(line[11..]);
      if sp >= 1 && FitsShape(line, 11 + sp, TimeShape) && 19 + sp < |line| && line[19 + sp] == ']'
      then Some(sp) else None
    else None
  }

  /** The application form `^\[(date\s+time)\]\s+(\w+)\s+(.+)$`: the bracketed
      timestamp, the level word and the message. */
  function AppMatch(line: string): Option<(string, string, string)> {
    match AppStampSpaces(line)
    case None => None
    case Some(sp) =>
      var wm := WordAndRest(line[20 + sp..]);
      if wm.None? then None else Some((line[1..19 + sp], wm.value.0, wm.value.1))
  }

  /** `\s+(\w+)\s+(.+)$` at the start of `t`: the word and the message. Each of
      the first two runs is followed by a character it cannot hold, so only the
      last `\s+` backtracks. */
  function WordAndRest(t: string): Option<(string, string)> {
    var sp := SpaceRun(t);
    var w := RunLength(t[sp..], IsWordChar);
    if sp >= 1 && w >= 1 then
      match RestAfterSpaces(t[sp + w..])
      case None => None
      case Some(m) => Some((t[sp..sp + w], m))
    else None
  }

  /** `_extract_log_components(line)`: the rsyslog form gives its timestamp, its
      message and the message's keyword level; the application form its
      timestamp, its message and its level word upper-cased; any other line is
      timestamped `now` and is its own message. */
  function ExtractComponents(line: string, now: string): (r: (string, string, string))
    ensures AppMatch(line).None? || RsyslogMatch(line).Some? ==> r.2 == ExtractLevel(r.1)
  {
    match RsyslogMatch(line)
    case Some((ts, m)) => (ts, m, ExtractLevel(m))
    case None =>
      match AppMatch(line)
      case Some((ts, word, m)) => (ts, m, Upper(word))
      case None => (now, line, ExtractLevel(line))
  }

  /** An rsyslog line `stamp message`, with a one-line message that does not
      start with a space, gives back the stamp, the message and its keyword level. */
  lemma RsyslogRoundTrip(ts: string, m: string, now: string)
    requires RsyslogStamp(ts) && m != [] && '\n' !in m && !IsSpace(m[0])
    ensures ExtractComponents(ts + " " + m, now) == (ts, m, ExtractLevel(m))
  {
    var line := ts + " " + m;
    RsyslogStampFound(ts, " " + m);
    assert line == ts + (" " + m);
    assert line[|ts|..] == " " + m;
    assert line[..|ts|] == ts;
    RestAfterOneSpace(m);
  }

  /** An application line `[date time] WORD message` gives back the bracketed
      stamp, the message and the word upper-cased. */
  lemma AppRoundTrip(date: string, time: string, word: string, m: string, now: string)
    requires |date| == |DateShape| && FitsShape(date, 0, DateShape)
    requires |time| == |TimeShape| && FitsShape(time, 0, TimeShape)
    requires word != [] && forall k :: 0 <= k < |word| ==> IsWordChar(word[k])
    requires m != [] && '\n' !in m && !IsSpace(m[0])
    ensures ExtractComponents("[" + date + " " + time + "] " + word + " " + m, now)
      == (date + " " + time, m, Upper(word))
  {
    var line := "[" + date + " " + time + "] " + word + " " + m;
    AppLineParts(line, date, time, word, m);
    assert ExtractComponents(line, now) == (line[1..20], m, Upper(word));
    AppLineStamp(line, date, time, word, m);
  }

  /** The parts `ExtractComponents` takes from an application line. */
  lemma AppLineParts(line: string, date: string, time: string, word: string, m: string)
    requires |date| == |DateShape| && FitsShape(date, 0, DateShape)
    requires |time| == |TimeShape| && FitsShape(time, 0, TimeShape)
    requires word != [] && forall k :: 0 <= k < |word| ==> IsWordChar(word[k])
    requires m != [] && '\n' !in m && !IsSpace(m[0])
    requires line == "[" + date + " " + time + "] " + word + " " + m
    ensures |line| >= 20 && RsyslogMatch(line) == None && AppMatch(line) == Some((line[1..20], word, m))
  {
    var rest := " " + word + " " + m;
    assert line == "[" + date + " " + time + "]" + rest;
    assert RsyslogStampLen(line) == None by {
      assert line[0] == '[' && IsoShape[0] == 'D';
    }
    assert RsyslogMatch(line) == None;
    AppStampFound(date, time, rest);
    assert line[21..] == rest;
    WordAndRestFound(word, m);
    assert AppMatch(line) == Some((line[1..20], word, m));
  }

  /** The bracketed stamp's text inside an application line. */
  lemma AppLineStamp(line: string, date: string, time: string, word: string, m: string)
    requires |date| == |DateShape| && |time| == |TimeShape|
    requires line == "[" + date + " " + time + "] " + word + " " + m
    ensures |line| >= 20 && line[1..20] == date + " " + time
  {
    var stamp := date + " " + time;
    assert line == "[" + stamp + "]" + (" " + word + " " + m);
  }

  /** The bracketed stamp `[date time]` with one space is found whatever follows. */
  lemma AppStampFound(date: string, time: string, rest: string)
    requires |date| == |DateShape| && FitsShape(date, 0, DateShape)
    requires |time| == |TimeShape| && FitsShape(time, 0, TimeShape)
    ensures AppStampSpaces("[" + date + " " + time + "]" + rest) == Some(1)
  {
    var line := "[" + date + " " + time + "]" + rest;
    assert FitsShape(line, 1, DateShape) by {
      forall k | 0 <= k < |DateShape| ensures CharFits(line[1 + k], DateShape[k]) {
        assert line[1 + k] == date[k];
      }
    }
    assert line[11] == ' ' && !IsSpace(line[12]) by {
      assert line[12] == time[0] && TimeShape[0] == 'D' && CharFits(time[0], TimeShape[0]);
    }
    assert line[11..][0] == ' ' && !IsSpace(line[11..][1]);
    RunLengthExact(line[11..], IsSpace, 1);
    assert FitsShape(line, 12, TimeShape) by {
      forall k | 0 <= k < |TimeShape| ensures CharFits(line[12 + k], TimeShape[k]) {
        assert line[12 + k] == time[k];
      }
    }
    assert line[20] == ']';
  }

  /** ` WORD message` gives back the word and the message. */
  lemma WordAndRestFound(word: string, m: string)
    requires word != [] && forall k :: 0 <= k < |word| ==> IsWordChar(word[k])
    requires m != [] && '\n' !in m && !IsSpace(m[0])
    ensures WordAndRest(" " + word + " " + m) == Some((word, m))
  {
    var t := " " + word + " " + m;
    WordRunAt(word, m);
    RestAfterOneSpace(m);
    WordAndRestOf(t, 1, |word|, m);
  }

  /** `WordAndRest` once its two runs and the rest are known. */
  lemma WordAndRestOf(t: string, sp: nat, w: nat, m: string)
    requires 1 <= sp && 1 <= w && sp + w <= |t|
    requires SpaceRun(t) == sp && RunLength(t[sp..], IsWordChar) == w
    requires RestAfterSpaces(t[sp + w..]) == Some(m)
    ensures WordAndRest(t) == Some((t[sp..sp + w], m))
  {
  }

  /** The space run and the word run at the front of ` WORD message`. */
  lemma WordRunAt(word: string, m: string)
    requires word != [] && forall k :: 0 <= k < |word| ==> IsWordChar(word[k])
    requires m != [] && !IsSpace(m[0])
    ensures var t := " " + word + " " + m;
      && SpaceRun(t) == 1 && RunLength(t[1..], IsWordChar) == |word|
      && t[1 + |word|..] == " " + m && t[1..1 + |word|] == word
  {
    var t := " " + word + " " + m;
    assert t[0] == ' ' && t[1] == word[0] && !IsSpace(word[0]);
    RunLengthExact(t, IsSpace, 1);
    assert t[1..] == word + (" " + m);
    RunOfWord(word, " " + m);
  }

  /** The word run at the front of `word + rest`, when `rest` starts with a space. */
  lemma RunOfWord(word: string, rest: string)
    requires forall k :: 0 <= k < |word| ==> IsWordChar(word[k])
    requires rest != [] && rest[0] == ' '
    ensures RunLength(word + rest, IsWordChar) == |word|
  {
    var s := word + rest;
    assert forall k :: 0 <= k < |word| ==> s[k] == word[k];
    assert s[|word|] == ' ';
    RunLengthExact(s, IsWordChar, |word|);
  }

  // -------------------------------------------------------------------- components

  /** A component and its patterns, searched case-insensitively. */
  datatype Named = Named(name: string, patterns: seq<Pattern>)

  const ListCreator: Named := Named("list-creator", [[Word("list"), AnyOne, Word("creator")], [Word("list_creator")]])
  const SchedulerRule: Named := Named("scheduler", [[Word("scheduler")], [Word("cron")]])
  const ApiRule: Named := Named("api", [[Word("api")], [Word("route")], [Word("endpoint")]])
  const DatabaseRule: Named := Named("database", [[Word("database")], [Word("db")], [Word("sql")]])

  /** `component_patterns`, in dictionary order. */
  const SportsSchedulerComponents: seq<Named> := [
    ListCreator,
    Named("epg-processor", [[Word("epg"), AnyOne, Word("processor")], [Word("epg_processor")]]),
    Named("channel-scanner", [[Word("channel"), AnyOne, Word("scanner")], [Word("channel_scanner")]]),
    SchedulerRule, ApiRule, DatabaseRule
  ]

  const AutoScraperComponents: seq<Named> := [
    ListCreator,
    Named("trakt-sync", [[Word("trakt")], [Word("sync")]]),
    Named("torrentio", [[Word("torrentio")], [Word("torrent")]]),
    SchedulerRule, ApiRule, DatabaseRule
  ]

  function ComponentPatterns(application: string): (r: Option<seq<Named>>)
    ensures r.Some? <==> application in {"sports-scheduler", "auto-scraper"}
  {
    if application == "sports-scheduler" then Some(SportsSchedulerComponents)
    else if application == "auto-scraper" then Some(AutoScraperComponents)
    else None
  }

  /** The first component of `rules` with a pattern found in `l`, else `general`. */
  function FirstComponent(rules: seq<Named>, l: string): (c: string)
    ensures c == "general" || exists k :: 0 <= k < |rules| && rules[k].name == c
  {
    var k := FirstWhere(rules, (n: Named) => SearchAny(n.patterns, l));
    if k < |rules| then rules[k].name else "general"
  }

  /** `_identify_component(application, message)`: the patterns carry
      `re.IGNORECASE` and have no upper-case letters, so searching them in the
      lower-cased message is the same test. */
  function IdentifyComponent(application: string, message: string): (c: string)
    ensures c != "general" ==> application in {"sports-scheduler", "auto-scraper"}
  {
    match ComponentPatterns(application)
    case None => "general"
    case Some(rules) => FirstComponent(rules, Lower(message))
  }

  /** First match in table order: either no component of the application's table
      matches (or it has none) and the answer is `general`, or the answer is the
      first component with a matching pattern. */
  lemma IdentifyComponentSpec(application: string, message: string)
    ensures var c := IdentifyComponent(application, message); var l := Lower(message);
      match ComponentPatterns(application)
      case None => c == "general"
      case Some(rules) =>
        ((forall j :: 0 <= j < |rules| ==> !SearchAny(rules[j].patterns, l)) && c == "general")
        || (exists k :: (0 <= k < |rules| && SearchAny(rules[k].patterns, l) && c == rules[k].name
              && forall j :: 0 <= j < k ==> !SearchAny(rules[j].patterns, l)))
  {
    match ComponentPatterns(application)
    case None =>
    case Some(rules) =>
      var l := Lower(message);
      var k := FirstWhere(rules, (n: Named) => SearchAny(n.patterns, l));
      if k < |rules| {
        assert SearchAny(rules[k].patterns, l) && IdentifyComponent(application, message) == rules[k].name;
      }
  }

  /** The list-creator event words `list creator` and `list_creator`. */
  predicate MentionsListCreator(message: string) {
    Contains(Lower(message), "list creator") || Contains(Lower(message), "list_creator")
  }

  /** A message the list-creator analysers store is identified as the
      `list-creator` component, which both tables try first. */
  lemma ListCreatorEventIsListCreator(application: string, message: string)
    requires application == "sports-scheduler" || application == "auto-scraper"
    requires MentionsListCreator(message)
    ensures IdentifyComponent(application, message) == "list-creator"
  {
    var l := Lower(message);
    var rules := ComponentPatterns(application).value;
    assert rules[0] == ListCreator;
    if Contains(l, "list creator") {
      var i :| 0 <= i <= |l| - 12 && OccursAt(l, "list creator", i);
      var s := l[i..];
      var p := ListCreator.patterns[0];
      assert s[..12] == "list creator";
      assert StartsWith(s, "list") by { assert s[..4] == s[..12][..4]; }
      assert s[4] == ' ' && Dot(s[4]);
      assert StartsWith(s[5..], "creator") by { assert s[5..][..7] == s[..12][5..]; }
      assert MatchPrefix(p[2..], s[5..]) by { assert p[2..][1..] == []; }
      assert MatchPrefix(p[1..], s[4..]) by { assert s[4..][1..] == s[5..] && p[1..][1..] == p[2..]; }
      assert MatchPrefix(p, s);
      assert SearchIn(p, l);
    } else {
      SearchWord("list_creator", l);
      assert ListCreator.patterns[1] == [Word("list_creator")];
    }
    assert SearchAny(rules[0].patterns, l);
  }

  /** `_parse_log_line(file_path, line)`, with `now` the ISO text of the clock. */
  function ParseLogLine(filePath: string, line: string, now: string): (e: Entry)
    ensures e.filePath == filePath && e.rawLine == line
  {
    var (host, application) := HostApplication(filePath);
    var (timestamp, message, level) := ExtractComponents(line, now);
    Entry(timestamp, host, application, IdentifyComponent(application, message), level, message, filePath, line)
  }

  /** A parsed entry's host is `unknown` exactly when its application is, and
      a component other than `general` only comes with `ssdev`. */
  lemma ParsedEntryConsistent(filePath: string, line: string, now: string)
    ensures var e := ParseLogLine(filePath, line, now);
      && (e.host == "unknown" <==> e.application == "unknown")
      && (e.component != "general" ==> e.host == "ssdev" && e.application in {"sports-scheduler", "auto-scraper"})
  {
    HostApplicationListed(filePath);
  }
}
