/** The rsyslog structured-log router: a `ROUTE|host|app|component|refresh_id|step|message`
    line is parsed, and its message is appended to the per-step file
    `/var/log/centralized/host/app/component/refresh_id/step.log`. */
module RouteLogs {
  import opened Wrappers
  import opened Text
  import opened Regex
  import opened Paths
  import RedisIngest
  import PySeq

  /** The dictionary `parse_structured_message` returns. */
  datatype Routed = Routed(
    timestamp: string, hostname: string, tag: string,
    host: string, app: string, component: string,
    refreshId: string, stepName: string, message: string)

  /** The text before the five fields. */
  const RouteMarker: string := "ROUTE|"

  /** `LOG_BASE_DIR`. */
  const LogBase: Path := Path("/", ["var", "log", "centralized"])

  // ---------------------------------------------------------------- the ROUTE fields

  /** A character `[^|]` accepts. */
  predicate NotBar(c: char) { c != '|' }

  /** A character `\S` accepts. */
  predicate NonSpace(c: char) { !IsSpace(c) }

  /** `[^|]+\|` at the start of `t`: the field and the text after its `|`. */
  function BarField(t: string): (r: Option<(string, string)>)
    ensures r.Some? ==> r.value.0 != [] && '|' !in r.value.0 && t == r.value.0 + "|" + r.value.1
  {
    var n := RunLength(t, NotBar);
    if 1 <= n < |t| then
      assert t == t[..n] + "|" + t[n + 1..];
      Some((t[..n], t[n + 1..]))
    else None
  }

  /** `k` fields in a row, each `[^|]+\|`: the fields and what follows the last `|`. */
  function BarFields(t: string, k: nat): (r: Option<(seq<string>, string)>)
    ensures r.Some? ==> |r.value.0| == k
    decreases k
  {
    if k == 0 then Some(([], t))
    else
      var head := BarField(t);
      if head.None? then None
      else
        var tail := BarFields(head.value.1, k - 1);
        if tail.None? then None
        else Some(([head.value.0] + tail.value.0, tail.value.1))
  }

  /** `(.*)`: the rest of the line up to the first line break. */
  function DotRest(t: string): (m: string)
    ensures StartsWith(t, m) && '\n' !in m
    ensures |m| == |t| || t[|m|] == '\n'
  {
    t[..RunLength(t, Dot)]
  }

  /** The ROUTE pattern tried at position `i` of `s`: the five fields and the message. */
  function RouteAt(s: string, i: nat): Option<(seq<string>, string)> {
    if OccursAt(s, RouteMarker, i) then
      match BarFields(s[i + |RouteMarker|..], 5)
      case None => None
      case Some((fs, after)) => Some((fs, DotRest(after)))
    else None
  }

  // ---------------------------------------------------------------- the syslog header

  /** `\S+\s+` at the start of `t`: the token and the text after its spaces. */
  function TokenAndSpaces(t: string): (r: Option<(string, string)>)
    ensures r.Some? ==> r.value.0 != [] && StartsWith(t, r.value.0)
  {
    var n := RunLength(t, NonSpace);
    var sp := SpaceRun(t[n..]);
    if n >= 1 && sp >= 1 then Some((t[..n], t[n + sp..])) else None
  }

  /** `^(\S+)\s+(\S+)\s+(\S+)\s+`: the three leading tokens. */
  function HeaderTokens(line: string): Option<(string, string, string)> {
    match TokenAndSpaces(line)
    case None => None
    case Some((a, r1)) =>
      match TokenAndSpaces(r1)
      case None => None
      case Some((b, r2)) =>
        match TokenAndSpaces(r2)
        case None => None
        case Some((c, _)) => Some((a, b, c))
  }

  /** Timestamp, hostname and tag: the header tokens, or the clock reading
      `now` and `unknown` twice when the header does not match. */
  function Header(line: string, now: string): (string, string, string) {
    match HeaderTokens(line)
    case Some(h) => h
    case None => (now, "unknown", "unknown")
  }

  /** The leftmost match of the ROUTE pattern. */
  function FindRoute(line: string): (m: Option<(seq<string>, string)>)
    ensures m.Some? ==> |m.value.0| == 5
  {
    Search(line, RouteAt, 0)
  }

  /** `parse_structured_message`: the leftmost ROUTE match gives the five
      fields and the message, the header the other three entries. */
  function ParseStructured(line: string, now: string): Option<Routed> {
    var found := FindRoute(line);
    if found.None? then None
    else
      var (fs, msg) := found.value;
      var (ts, hn, tag) := Header(line, now);
      Some(Routed(ts, hn, tag, fs[0], fs[1], fs[2], fs[3], fs[4], msg))
  }

  // ---------------------------------------------------------------- the step file

  /** `LOG_BASE_DIR / host / app / component / refresh_id / f"{step_name}.log"`. */
  function StepFile(r: Routed): Path {
    Child(Child(Child(Child(Child(LogBase, r.host), r.app), r.component), r.refreshId), r.stepName + ".log")
  }

  /** The line appended to the step file: the header and the message, without the ROUTE part. */
  function FormattedLine(r: Routed): string {
    r.timestamp + " " + r.hostname + " " + r.tag + " " + r.message + "\n"
  }

  /** One stdin line of `main`: stripped, skipped when blank or without `ROUTE|`,
      otherwise parsed and, when that succeeds, the file and the text appended to it. */
  function RouteLine(line: string, now: string): Option<(Path, string)> {
    var l := Strip(line);
    if l == [] || !Contains(l, RouteMarker) then None
    else match ParseStructured(l, now)
      case None => None
      case Some(r) => Some((StepFile(r), FormattedLine(r)))
  }

  // ---------------------------------------------------------------- what the parser accepts

  /** A field `[^|]+` accepts: not empty and without `|`. */
  predicate GoodField(f: string) { f != [] && '|' !in f }

  predicate GoodFields(fs: seq<string>) { forall k :: 0 <= k < |fs| ==> GoodField(fs[k]) }

  /** The fields, each followed by its `|`. */
  function Bars(fs: seq<string>): string {
    if fs == [] then "" else fs[0] + "|" + Bars(fs[1..])
  }

  /** The fields `BarFields` reads are well-formed. */
  lemma {:induction false} BarFieldsGood(t: string, k: nat)
    requires BarFields(t, k).Some?
    ensures GoodFields(BarFields(t, k).value.0)
    decreases k
  {
    if k > 0 {
      var head := BarField(t).value;
      BarFieldsGood(head.1, k - 1);
      var tail := BarFields(head.1, k - 1).value;
      assert BarFields(t, k).value == ([head.0] + tail.0, tail.1);
    }
  }

  /** What `BarFields` reads is its fields, each with its bar, then the rest. */
  lemma {:induction false} BarFieldsText(t: string, k: nat)
    requires BarFields(t, k).Some?
    ensures t == Bars(BarFields(t, k).value.0) + BarFields(t, k).value.1
    decreases k
  {
    if k > 0 {
      var head := BarField(t).value;
      BarFieldsText(head.1, k - 1);
      var tail := BarFields(head.1, k - 1).value;
      BarsCons(head.0, tail.0);
      assert BarFields(t, k).value == ([head.0] + tail.0, tail.1);
    }
  }

  lemma BarsCons(f: string, fs: seq<string>)
    ensures Bars([f] + fs) == f + "|" + Bars(fs)
  {
    assert ([f] + fs)[1..] == fs;
  }

  /** One well-formed field followed by its bar is read back exactly. */
  lemma BarFieldOf(f: string, rest: string)
    requires GoodField(f)
    ensures BarField(f + "|" + rest) == Some((f, rest))
  {
    var t := f + "|" + rest;
    assert t[..|f|] == f;
    assert forall k :: 0 <= k < |f| ==> t[k] == f[k];
    RunLengthExact(t, NotBar, |f|);
    assert t[|f| + 1..] == rest;
  }

  /** Well-formed fields, each followed by its bar, are read back exactly. */
  lemma {:induction false} BarFieldsOf(fs: seq<string>, after: string)
    requires GoodFields(fs)
    ensures BarFields(Bars(fs) + after, |fs|) == Some((fs, after))
    decreases |fs|
  {
    if fs != [] {
      var rest := Bars(fs[1..]) + after;
      assert Bars(fs) + after == fs[0] + "|" + rest;
      BarFieldOf(fs[0], rest);
      BarFieldsOf(fs[1..], after);
      assert BarField(Bars(fs) + after) == Some((fs[0], rest));
      assert BarFields(rest, |fs| - 1) == Some((fs[1..], after));
      assert [fs[0]] + fs[1..] == fs;
    } else {
      assert Bars(fs) + after == after;
    }
  }

  /** A message `(.*)` takes whole: no line break in it. */
  lemma DotRestWhole(m: string)
    requires '\n' !in m
    ensures DotRest(m) == m
  {
    RunLengthExact(m, Dot, |m|);
  }

  /** Where the ROUTE pattern matches, `ROUTE|` and five well-formed fields
      with their bars stand, followed by the message, which is the rest of
      that line. */
  lemma RouteAtSome(s: string, i: nat)
    requires RouteAt(s, i).Some?
    ensures |RouteAt(s, i).value.0| == 5 && GoodFields(RouteAt(s, i).value.0)
    ensures '\n' !in RouteAt(s, i).value.1
    ensures StartsWith(s[i..], RouteMarker + Bars(RouteAt(s, i).value.0) + RouteAt(s, i).value.1)
  {
    var t := s[i + |RouteMarker|..];
    BarFieldsGood(t, 5);
    BarFieldsText(t, 5);
    var fields := BarFields(t, 5).value;
    var msg := DotRest(fields.1);
    assert RouteAt(s, i).value == (fields.0, msg);
    MarkerThenRest(s, i, Bars(fields.0), fields.1, msg);
  }

  /** `s[i..]` is `ROUTE|`, then `b`, then `after`; so it starts with `ROUTE|`, `b` and any start of `after`. */
  lemma MarkerThenRest(s: string, i: nat, b: string, after: string, m: string)
    requires i + |RouteMarker| <= |s| && s[i..i + |RouteMarker|] == RouteMarker
    requires s[i + |RouteMarker|..] == b + after && StartsWith(after, m)
    ensures StartsWith(s[i..], RouteMarker + b + m)
  {
    assert s[i..] == RouteMarker + (b + after);
    assert after == m + after[|m|..];
    assert s[i..] == RouteMarker + b + m + after[|m|..];
  }

  /** Where `ROUTE|` and five well-formed fields with their bars stand, the
      ROUTE pattern matches, with those fields and the rest of that line. */
  lemma RouteAtOf(s: string, i: nat, fs: seq<string>, rest: string)
    requires i <= |s| && |fs| == 5 && GoodFields(fs) && s[i..] == RouteMarker + Bars(fs) + rest
    ensures RouteAt(s, i) == Some((fs, DotRest(rest)))
  {
    assert s[i..i + |RouteMarker|] == s[i..][..|RouteMarker|] == RouteMarker;
    assert s[i + |RouteMarker|..] == Bars(fs) + rest;
    BarFieldsOf(fs, rest);
  }

  /** `parse_structured_message` returns a value exactly when the ROUTE
      pattern matches somewhere in the line. */
  lemma ParseFound(line: string, now: string)
    ensures ParseStructured(line, now).Some? <==> exists i :: 0 <= i <= |line| && RouteAt(line, i).Some?
  {
    var m := FindRoute(line);
    if m.Some? {
      var i :| 0 <= i <= |line| && RouteAt(line, i) == m;
    }
  }

  /** The leftmost match is a match at some position. */
  lemma FoundSomewhere(line: string)
    requires FindRoute(line).Some?
    ensures exists i :: 0 <= i <= |line| && RouteAt(line, i) == FindRoute(line)
  {
  }

  /** A line holding the match of the ROUTE pattern holds `ROUTE|`, the five
      well-formed fields with their bars and the message, which has no line break. */
  lemma MatchInLine(line: string)
    requires FindRoute(line).Some?
    ensures var m := FindRoute(line).value;
      GoodFields(m.0) && '\n' !in m.1 && Contains(line, RouteMarker + Bars(m.0) + m.1)
  {
    FoundSomewhere(line);
    var m := FindRoute(line);
    var i :| 0 <= i <= |line| && RouteAt(line, i) == m;
    RouteAtSome(line, i);
    StartsWithContains(line, i, RouteMarker + Bars(m.value.0) + m.value.1);
  }

  /** What stands at position `i` of a line is contained in it. */
  lemma StartsWithContains(line: string, i: nat, w: string)
    requires i <= |line| && StartsWith(line[i..], w)
    ensures Contains(line, w)
  {
    assert line[i..][..|w|] == line[i..i + |w|];
    assert OccursAt(line, w, i);
  }

  /** A parsed line holds `ROUTE|`, the five well-formed fields with their
      bars and the message, which runs to the end of that line; the other three
      entries are the header tokens or the fallbacks. */
  lemma ParseFields(line: string, now: string)
    requires ParseStructured(line, now).Some?
    ensures var r := ParseStructured(line, now).value;
      GoodFields(RouteFields(r)) && '\n' !in r.message &&
      Contains(line, RouteMarker + Bars(RouteFields(r)) + r.message) &&
      (r.timestamp, r.hostname, r.tag) == Header(line, now)
  {
    var m := FindRoute(line).value;
    MatchInLine(line);
    FiveFields(m.0);
  }

  lemma FiveFields(fs: seq<string>)
    requires |fs| == 5
    ensures [fs[0], fs[1], fs[2], fs[3], fs[4]] == fs
  {
  }

  /** A line that holds `ROUTE|`, five well-formed fields and their bars is parsed. */
  lemma ParseAccepts(line: string, now: string, i: nat, fs: seq<string>, rest: string)
    requires i <= |line| && |fs| == 5 && GoodFields(fs) && line[i..] == RouteMarker + Bars(fs) + rest
    ensures ParseStructured(line, now).Some?
  {
    RouteAtOf(line, i, fs, rest);
    ParseFound(line, now);
  }

  /** Every header token is a run of non-space characters. */
  predicate Token(t: string) { t != [] && forall k :: 0 <= k < |t| ==> !IsSpace(t[k]) }

  /** A token, one space and text starting with a non-space: `\S+\s+` takes
      exactly the token and the space. */
  lemma TokenAndSpacesOf(a: string, b: string)
    requires Token(a) && b != [] && !IsSpace(b[0])
    ensures TokenAndSpaces(a + " " + b) == Some((a, b))
  {
    var t := a + " " + b;
    assert forall k :: 0 <= k < |a| ==> t[k] == a[k];
    RunLengthExact(t, NonSpace, |a|);
    assert t[|a|..] == " " + b;
    RunLengthExact(" " + b, IsSpace, 1);
    assert t[..|a|] == a && t[|a| + 1..] == b;
  }

  // ---------------------------------------------------------------- the line rsyslog hands over

  /** A record a sender can route: header tokens free of `|`, five well-formed
      fields, a one-line message. */
  predicate Routable(r: Routed) {
    Token(r.timestamp) && Token(r.hostname) && Token(r.tag) &&
    '|' !in r.timestamp && '|' !in r.hostname && '|' !in r.tag &&
    GoodFields(RouteFields(r)) && '\n' !in r.message
  }

  function RouteFields(r: Routed): seq<string> {
    [r.host, r.app, r.component, r.refreshId, r.stepName]
  }

  /** `TIMESTAMP HOSTNAME TAG ROUTE|host|app|component|refresh_id|step_name|message`. */
  function SyslogLine(r: Routed): string {
    r.timestamp + " " + r.hostname + " " + r.tag + " " + RouteMarker + Bars(RouteFields(r)) + r.message
  }

  /** No `ROUTE|` starts inside the header, which holds no `|`. */
  lemma NoMarkerInHeader(line: string, p: nat)
    requires p + |RouteMarker| <= |line| && line[p..p + |RouteMarker|] == RouteMarker
    requires forall k :: 0 <= k < p ==> line[k] != '|'
    ensures forall j :: 0 <= j < p ==> !OccursAt(line, RouteMarker, j)
  {
    forall j | 0 <= j < p ensures !OccursAt(line, RouteMarker, j) {
      var c := line[j + 5];
      if j + 5 >= p {
        assert c == line[p..p + |RouteMarker|][j + 5 - p];
      }
      assert line[j..j + |RouteMarker|][5] == c;
    }
  }

  /** Where the ROUTE part of a sender's line starts: after the header, which holds no `|`. */
  lemma SyslogLayout(r: Routed)
    requires Routable(r)
    ensures var p := |r.timestamp| + |r.hostname| + |r.tag| + 3;
      p <= |SyslogLine(r)| &&
      SyslogLine(r)[p..] == RouteMarker + Bars(RouteFields(r)) + r.message &&
      forall k :: 0 <= k < p ==> SyslogLine(r)[k] != '|'
  {
    var line := SyslogLine(r);
    var p := |r.timestamp| + |r.hostname| + |r.tag| + 3;
    var head := r.timestamp + " " + r.hostname + " " + r.tag + " ";
    assert line == head + (RouteMarker + Bars(RouteFields(r)) + r.message);
    assert |head| == p;
    forall k | 0 <= k < p ensures line[k] != '|' {
      assert line[k] == head[k];
      if k < |r.timestamp| {
        assert head[k] == r.timestamp[k];
      } else if k == |r.timestamp| {
      } else if k < |r.timestamp| + 1 + |r.hostname| {
        assert head[k] == r.hostname[k - |r.timestamp| - 1];
      } else if k == |r.timestamp| + 1 + |r.hostname| {
      } else if k < p - 1 {
        assert head[k] == r.tag[k - |r.timestamp| - |r.hostname| - 2];
      }
    }
  }

  /** The header of a sender's line gives back its timestamp, hostname and tag. */
  lemma SyslogHeader(r: Routed)
    requires Routable(r)
    ensures HeaderTokens(SyslogLine(r)) == Some((r.timestamp, r.hostname, r.tag))
  {
    var tail := RouteMarker + Bars(RouteFields(r)) + r.message;
    var r2 := r.tag + " " + tail;
    var r1 := r.hostname + " " + r2;
    assert SyslogLine(r) == r.timestamp + " " + r1;
    TokenAndSpacesOf(r.timestamp, r1);
    TokenAndSpacesOf(r.hostname, r2);
    TokenAndSpacesOf(r.tag, tail);
  }

  /** The leftmost match is at the first position where the matcher succeeds. */
  lemma FindRouteAt(line: string, p: nat)
    requires p <= |line| && RouteAt(line, p).Some?
    requires forall j :: 0 <= j < p ==> RouteAt(line, j).None?
    ensures FindRoute(line) == RouteAt(line, p)
  {
    SearchFirst(line, RouteAt, 0, p);
  }

  /** Parsing the line a sender writes gives back the record it was written from. */
  lemma ParseSyslogLine(r: Routed, now: string)
    requires Routable(r)
    ensures ParseStructured(SyslogLine(r), now) == Some(r)
  {
    var line := SyslogLine(r);
    var p := |r.timestamp| + |r.hostname| + |r.tag| + 3;
    SyslogLayout(r);
    NoMarkerInHeader(line, p);
    RouteAtOf(line, p, RouteFields(r), r.message);
    DotRestWhole(r.message);
    FindRouteAt(line, p);
    SyslogHeader(r);
  }

  // ---------------------------------------------------------------- the step file

  /** Fields that stay one path segment each. */
  predicate PathFields(r: Routed) {
    ValidSeg(r.host) && ValidSeg(r.app) && ValidSeg(r.component) && ValidSeg(r.refreshId) && '/' !in r.stepName
  }

  /** With fields that are plain segments the step file is
      `/var/log/centralized/host/app/component/refresh_id/step_name.log`. */
  lemma StepFileSegments(r: Routed)
    requires PathFields(r)
    ensures StepFile(r) == Path("/", LogBase.segs + [r.host, r.app, r.component, r.refreshId, r.stepName + ".log"])
  {
    ChildSeg(LogBase, r.host);
    var p1 := Child(LogBase, r.host);
    ChildSeg(p1, r.app);
    var p2 := Child(p1, r.app);
    ChildSeg(p2, r.component);
    var p3 := Child(p2, r.component);
    ChildSeg(p3, r.refreshId);
    var p4 := Child(p3, r.refreshId);
    var step := r.stepName + ".log";
    assert step[|step| - 1] == 'g';
    assert '/' !in step;
    ChildSeg(p4, step);
  }

  /** The parts of a step file whose fields are plain segments. */
  lemma StepFileParts(r: Routed)
    requires PathFields(r)
    ensures Parts(StepFile(r)) ==
      ["/", "var", "log", "centralized", r.host, r.app, r.component, r.refreshId, r.stepName + ".log"]
  {
    StepFileSegments(r);
  }

  /** An element at index 6 and not before it is first found there. */
  lemma FirstAtSix(parts: seq<string>, x: string)
    requires |parts| > 6 && parts[6] == x && x !in parts[..6]
    ensures x in parts && PySeq.ListIndex(parts, x) == 6
  {
  }

  /** The Redis processor reads back from the step file the refresh id and the
      step the router wrote it for. */
  lemma StepFileRoundTrip(r: Routed)
    requires PathFields(r)
    requires r.component == RedisIngest.Orchestrator
    requires r.host != RedisIngest.Orchestrator && r.app != RedisIngest.Orchestrator
    requires !Contains(r.stepName, ".log")
    ensures RedisIngest.RefreshAndStep(StepFile(r)) == (Some(r.refreshId), Some(r.stepName))
  {
    StepFileParts(r);
    var parts := Parts(StepFile(r));
    assert parts[..6] == ["/", "var", "log", "centralized", r.host, r.app];
    assert |RedisIngest.Orchestrator| == 17;
    FirstAtSix(parts, RedisIngest.Orchestrator);
    StripLogSuffix(r.stepName);
  }

  /** The Redis processor files a step file under the orchestrator component. */
  lemma StepFileComponent(r: Routed)
    requires PathFields(r) && r.component == RedisIngest.Orchestrator
    ensures RedisIngest.ComponentName(StepFile(r)) == RedisIngest.Orchestrator
  {
    StepFileParts(r);
    assert Parts(StepFile(r))[6] == RedisIngest.Orchestrator;
  }

  // ---------------------------------------------------------------- main

  /** An occurrence inside a slice is an occurrence in the whole. */
  lemma ContainsInSlice(s: string, i: nat, j: nat, w: string)
    requires i <= j <= |s| && Contains(s[i..j], w)
    ensures Contains(s, w)
  {
    var t := s[i..j];
    var k :| 0 <= k <= |t| - |w| && OccursAt(t, w, k);
    forall m | k <= m < k + |w| ensures s[i + m] == t[m] {}
    assert s[i + k..i + k + |w|] == t[k..k + |w|];
    assert OccursAt(s, w, i + k);
  }

  /** `main` forwards only lines that are not blank and hold `ROUTE|`. */
  lemma RouteLineSkips(line: string, now: string)
    ensures RouteLine(line, now).Some? ==> !AllSpace(line) && Contains(line, RouteMarker)
  {
    StripSpec(line);
    var l := Strip(line);
    if RouteLine(line, now).Some? {
      assert l != [] && Contains(l, RouteMarker);
      var i, j :| 0 <= i <= j <= |line| && l == line[i..j];
      ContainsInSlice(line, i, j, RouteMarker);
    }
  }

  /** The fields with their bars end with a bar. */
  lemma {:induction false} BarsEndsWithBar(fs: seq<string>)
    requires fs != []
    ensures Bars(fs) != [] && Bars(fs)[|Bars(fs)| - 1] == '|'
    decreases |fs|
  {
    if |fs| > 1 {
      BarsEndsWithBar(fs[1..]);
    }
  }

  /** `strip()` keeps a line that starts and ends with a non-space character. */
  lemma StripKeeps(s: string)
    requires s != [] && !IsSpace(s[0]) && !IsSpace(s[|s| - 1])
    ensures Strip(s) == s
  {
    assert TrimStart(s) == s;
  }

  /** A sender's line with no whitespace at its end starts and ends with a
      non-space character. */
  lemma SyslogLineEnds(r: Routed)
    requires Routable(r)
    requires r.message == [] || !IsSpace(r.message[|r.message| - 1])
    ensures var line := SyslogLine(r);
      line != [] && !IsSpace(line[0]) && !IsSpace(line[|line| - 1])
  {
    var line := SyslogLine(r);
    var p := |r.timestamp| + |r.hostname| + |r.tag| + 3;
    SyslogLayout(r);
    var tail := line[p..];
    assert line[0] == r.timestamp[0];
    assert line[|line| - 1] == tail[|tail| - 1];
    if r.message == [] {
      BarsEndsWithBar(RouteFields(r));
      assert tail == RouteMarker + Bars(RouteFields(r));
    } else {
      assert tail[|tail| - 1] == r.message[|r.message| - 1];
    }
  }

  /** A sender's line with no whitespace at its end survives `strip()` and holds `ROUTE|`. */
  lemma SyslogLineKept(r: Routed)
    requires Routable(r)
    requires r.message == [] || !IsSpace(r.message[|r.message| - 1])
    ensures Strip(SyslogLine(r)) == SyslogLine(r) && Contains(SyslogLine(r), RouteMarker)
  {
    var line := SyslogLine(r);
    var p := |r.timestamp| + |r.hostname| + |r.tag| + 3;
    SyslogLineEnds(r);
    StripKeeps(line);
    SyslogLayout(r);
    assert line[p..p + |RouteMarker|] == RouteMarker;
    ContainsAt(line, RouteMarker, p);
  }

  /** A line a sender writes, with no whitespace at its end, is appended to its
      step file as the header and the message without the ROUTE part. */
  lemma RouteSyslogLine(r: Routed, now: string)
    requires Routable(r)
    requires r.message == [] || !IsSpace(r.message[|r.message| - 1])
    ensures RouteLine(SyslogLine(r), now) == Some((StepFile(r), FormattedLine(r)))
  {
    SyslogLineKept(r);
    ParseSyslogLine(r, now);
  }
}
