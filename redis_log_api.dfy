/** The Redis log query API: which sorted sets a query reads, how a page of
    entries is cut from them and cached, the statistics roll-up and the
    full-text search across a host's sets. */
module RedisQueries {
  import opened Wrappers
  import opened Text
  import opened PySeq
  import opened Store
  import opened Time
  import opened Sorting
  import opened RedisIngest
  import opened RedisProcessor

  /** `query_cache_ttl`: five minutes. */
  const QueryCacheTtl: int := 300

  /** `zrevrange(key, 0, 100)` in `search_logs`: the newest 101 entries of a set. */
  const SearchWindow: nat := 101

  /** The routes cap `limit` at 500. */
  const RouteLimitCap: int := 500

  /** A returned log: the stored document's fields, with `None` standing for a
      JSON `null` (an absent application or component). */
  type Log = map<string, Option<string>>

  /** `log_data.get('message', '')` of a stored document. */
  function MessageOf(d: map<string, string>): string {
    if "message" in d then d["message"] else ""
  }

  /** `x.get('message', '')` of a returned log. */
  function LogMessage(e: Log): string {
    if "message" in e && e["message"].Some? then e["message"].value else ""
  }

  /** `x.get('timestamp', '')` of a returned log. */
  function LogTimestamp(e: Log): string {
    if "timestamp" in e && e["timestamp"].Some? then e["timestamp"].value else ""
  }

  /** The case-insensitive substring test of both search paths. */
  predicate Mentions(text: string, query: string) {
    Contains(Lower(text), Lower(query))
  }

  // ---------------------------------------------------------------- enrichment

  /** `_enrich_log_data_from_sorted_set`: a copy of the document with host,
      application and component overwritten. */
  function EnrichFromSet(d: map<string, string>, host: string, app: Option<string>, component: Option<string>): (e: Log)
    ensures e.Keys == d.Keys + {"host", "application", "component"}
    ensures Tagged(e, host, app, component)
    ensures forall k :: k in d && k != "host" && k != "application" && k != "component" ==> e[k] == Some(d[k])
    ensures LogMessage(e) == MessageOf(d)
  {
    (map k | k in d :: Some(d[k]))["host" := Some(host)]["application" := app]["component" := component]
  }

  /** A log that names a host, an application and a component. */
  predicate Tagged(e: Log, host: string, app: Option<string>, component: Option<string>) {
    && "host" in e && e["host"] == Some(host)
    && "application" in e && e["application"] == app
    && "component" in e && e["component"] == component
  }

  /** `_enrich_log_data`: host, application and component read from the second
      to fourth colon-separated parts of a key, else `unknown`. */
  function EnrichFromKey(d: map<string, string>, key: string): (e: Log)
    ensures |Split(key, ':')| < 4 ==> Tagged(e, "unknown", Some("unknown"), Some("unknown"))
  {
    var parts := Split(key, ':');
    if |parts| >= 4 then EnrichFromSet(d, parts[1], Some(parts[2]), Some(parts[3]))
    else EnrichFromSet(d, "unknown", Some("unknown"), Some("unknown"))
  }

  /** Splitting `x:y` with a colon-free `x` puts `x` first. */
  lemma SplitCons(x: string, y: string)
    requires ':' !in x
    ensures Split(x + ":" + y, ':') == [x] + Split(y, ':')
  {
    var s := x + ":" + y;
    assert s[..|x|] == x && s[|x|] == ':';
    IndexOfUnique(s, ':', |x|);
    assert s[|x| + 1..] == y;
  }

  /** The parts of a key `log:host:app:component:...`. */
  lemma KeyParts(host: string, app: string, component: string, rest: string)
    requires ':' !in host && ':' !in app && ':' !in component
    ensures var parts := Split("log:" + host + ":" + app + ":" + component + ":" + rest, ':');
      |parts| >= 4 && parts[1] == host && parts[2] == app && parts[3] == component
  {
    var r3 := component + ":" + rest;
    var r2 := app + ":" + r3;
    var r1 := host + ":" + r2;
    var key := "log:" + host + ":" + app + ":" + component + ":" + rest;
    assert key == "log" + ":" + r1;
    SplitCons("log", r1);
    SplitCons(host, r2);
    SplitCons(app, r3);
    SplitCons(component, rest);
    var p0, p1, p2, p3 := Split(key, ':'), Split(r1, ':'), Split(r2, ':'), Split(r3, ':');
    assert p0[1] == p1[0] == host;
    assert p0[2] == p1[1] == p2[0] == app;
    assert p0[3] == p1[2] == p2[1] == p3[0] == component;
  }

  /** A key written as `log:host:app:component:...` is enriched with exactly
      that host, application and component. */
  lemma EnrichFromKeyRoundTrip(d: map<string, string>, host: string, app: string, component: string, rest: string)
    requires ':' !in host && ':' !in app && ':' !in component
    ensures Tagged(EnrichFromKey(d, "log:" + host + ":" + app + ":" + component + ":" + rest), host, Some(app), Some(component))
  {
    KeyParts(host, app, component, rest);
  }

  // ---------------------------------------------------------------- keys

  /** The base pattern of `get_logs`: down to the component when both an
      application and a component are given, else down to the application,
      else the whole host. */
  function BaseKey(host: string, app: Option<string>, component: Option<string>): (k: string)
    ensures EndsWith(k, ":*")
    ensures StartsWith(k, "log:" + host + ":")
  {
    "log:" + KeyPath(host, app, component) + "*"
  }

  /** The names a base pattern is built from, each followed by `:`: the
      host, then the application when given, then the component when both are. */
  function KeyPath(host: string, app: Option<string>, component: Option<string>): string {
    if Truthy(app) && Truthy(component) then host + ":" + app.value + ":" + component.value + ":"
    else if Truthy(app) then host + ":" + app.value + ":"
    else host + ":"
  }

  /** The prefix the base pattern stands for, with the `logs:` of the sorted sets. */
  function SetPrefix(host: string, app: Option<string>, component: Option<string>): string {
    "logs:" + KeyPath(host, app, component)
  }

  /** At most one filter suffix, with precedence level, then refresh id, then step. */
  function QueryKey(base: string, level: Option<string>, refreshId: Option<string>, step: Option<string>): (k: string)
    ensures StartsWith(k, base)
    ensures k == base <==> !Truthy(level) && !Truthy(refreshId) && !Truthy(step)
    ensures Truthy(level) ==> k == base + ":level:" + level.value
    ensures !Truthy(level) && Truthy(refreshId) ==> k == base + ":refresh:" + refreshId.value
    ensures !Truthy(level) && !Truthy(refreshId) && Truthy(step) ==> k == base + ":step:" + step.value
  {
    if Truthy(level) then base + ":level:" + level.value
    else if Truthy(refreshId) then base + ":refresh:" + refreshId.value
    else if Truthy(step) then base + ":step:" + step.value
    else base
  }

  /** Every query key holds a `*`, so `get_logs` always takes the wildcard
      branch and its direct single-set branch is never reached. */
  lemma WildcardAlways(host: string, app: Option<string>, component: Option<string>,
                       level: Option<string>, refreshId: Option<string>, step: Option<string>)
    ensures '*' in QueryKey(BaseKey(host, app, component), level, refreshId, step)
  {
    var base := BaseKey(host, app, component);
    var k := QueryKey(base, level, refreshId, step);
    assert base[|base| - 1] == '*';
    assert k[..|base|] == base;
    assert k[|base| - 1] == '*';
  }

  /** `pattern.replace('log:', 'logs:', 1)`. */
  function SetPattern(pattern: string): string {
    ReplaceFirst(pattern, "log:", "logs:")
  }

  /** The rewrite only touches the leading `log:` of a base pattern. */
  lemma SetPatternOfBase(host: string, app: Option<string>, component: Option<string>)
    ensures SetPattern(BaseKey(host, app, component)) == SetPrefix(host, app, component) + "*"
  {
    var t := KeyPath(host, app, component) + "*";
    assert BaseKey(host, app, component) == "log:" + t;
    assert SetPrefix(host, app, component) + "*" == "logs:" + t;
    ReplaceFirstLeading("log:", "logs:", t);
  }

  /** With `*`-free names, the sets a query reads are exactly those whose key
      starts with the query's prefix. */
  lemma BasePatternMatches(host: string, app: Option<string>, component: Option<string>, key: string)
    requires '*' !in host
    requires app.Some? ==> '*' !in app.value
    requires component.Some? ==> '*' !in component.value
    ensures GlobMatch(SetPattern(BaseKey(host, app, component)), key) <==>
      StartsWith(key, SetPrefix(host, app, component))
  {
    SetPatternOfBase(host, app, component);
    var p := SetPrefix(host, app, component);
    assert '*' !in p by {
      assert '*' !in "logs:" && '*' !in ":";
    }
    PrefixPattern(p, key);
  }

  /** A query naming both an application and a component never reads that
      component's primary set `logs:host:app:component`, whose key lacks the
      trailing colon of the pattern; it reads only that component's derived
      sets. */
  lemma ComponentQuerySkipsPrimary(host: string, app: string, component: string)
    requires '*' !in host && '*' !in app && '*' !in component
    requires app != "" && component != ""
    ensures !GlobMatch(SetPattern(BaseKey(host, Some(app), Some(component))), IndexKey(host, app, component))
  {
    BasePatternMatches(host, Some(app), Some(component), IndexKey(host, app, component));
  }

  /** The base pattern as its comment evidently means it: down to the
      component without the colon that keeps the primary set out. */
  function IntendedBaseKey(host: string, app: Option<string>, component: Option<string>): (k: string)
    ensures StartsWith(k, "log:" + host + ":")
  {
    if Truthy(app) && Truthy(component) then "log:" + host + ":" + app.value + ":" + component.value + "*"
    else BaseKey(host, app, component)
  }

  /** The intended component pattern reads the component's primary set, and
      every set the pattern as written reads. */
  lemma IntendedComponentQueryReadsPrimary(host: string, app: string, component: string, key: string)
    requires '*' !in host && '*' !in app && '*' !in component
    requires app != "" && component != ""
    ensures GlobMatch(SetPattern(IntendedBaseKey(host, Some(app), Some(component))), IndexKey(host, app, component))
    ensures GlobMatch(SetPattern(BaseKey(host, Some(app), Some(component))), key) ==>
      GlobMatch(SetPattern(IntendedBaseKey(host, Some(app), Some(component))), key)
  {
    var p := IndexKey(host, app, component);
    IntendedPattern(host, app, component);
    SetPatternOfBase(host, Some(app), Some(component));
    ComponentSetPrefix(host, app, component);
    PrefixPatternNarrows(p, ":", key);
  }

  /** A component query stands for the keys under the primary set's key and a `:`. */
  lemma ComponentSetPrefix(host: string, app: string, component: string)
    requires app != "" && component != ""
    ensures SetPrefix(host, Some(app), Some(component)) == IndexKey(host, app, component) + ":"
  {
    assert KeyPath(host, Some(app), Some(component)) == host + ":" + app + ":" + component + ":";
  }

  /** The intended component pattern is the primary set's key followed by `*`,
      and that key holds no `*` of its own. */
  lemma IntendedPattern(host: string, app: string, component: string)
    requires '*' !in host && '*' !in app && '*' !in component
    requires app != "" && component != ""
    ensures SetPattern(IntendedBaseKey(host, Some(app), Some(component))) == IndexKey(host, app, component) + "*"
    ensures '*' !in IndexKey(host, app, component)
  {
    var t := host + ":" + app + ":" + component + "*";
    assert IntendedBaseKey(host, Some(app), Some(component)) == "log:" + t;
    ReplaceFirstLeading("log:", "logs:", t);
    assert '*' !in "logs:" && '*' !in ":";
  }

  /** An application query reads the primary set of each of its components. */
  lemma AppQueryReadsPrimary(host: string, app: string, component: string)
    requires '*' !in host && '*' !in app
    requires app != ""
    ensures GlobMatch(SetPattern(BaseKey(host, Some(app), None)), IndexKey(host, app, component))
  {
    BasePatternMatches(host, Some(app), None, IndexKey(host, app, component));
    var p := SetPrefix(host, Some(app), None);
    assert IndexKey(host, app, component) == p + component;
    assert IndexKey(host, app, component)[..|p|] == p;
  }

  // ---------------------------------------------------------------- cache key

  /** How a score bound prints: `+inf` when absent. */
  function ScoreText(s: Option<int>): (t: string)
    ensures ':' !in t
  {
    if s.None? then "+inf" else IntToString(s.value)
  }

  lemma ScoreTextInjective(a: Option<int>, b: Option<int>)
    requires ScoreText(a) == ScoreText(b)
    ensures a == b
  {
    if a.Some? && b.Some? {
      IntToStringInjective(a.value, b.value);
    } else if a.Some? {
      assert ScoreText(b)[0] == '+';
      IntToStringNoPlus(a.value);
    } else if b.Some? {
      assert ScoreText(a)[0] == '+';
      IntToStringNoPlus(b.value);
    }
  }

  /** A decimal numeral never starts with `+`. */
  lemma IntToStringNoPlus(i: int)
    ensures IntToString(i) != [] && IntToString(i)[0] != '+'
  {
    if i >= 0 {
      assert IsDigit(IntToString(i)[0]);
    } else {
      assert IntToString(i)[0] == '-';
    }
  }

  /** `_generate_cache_key` before hashing: the query key, the two score bounds,
      the limit and the offset. */
  function CacheContent(queryKey: string, start: int, end: Option<int>, limit: int, offset: int): string {
    queryKey + ":" + IntToString(start) + ":" + ScoreText(end) + ":" + IntToString(limit) + ":" + IntToString(offset)
  }

  /** `x:y` with a colon-free `y` determines `x` and `y`. */
  lemma LastColonSplit(x: string, y: string, x2: string, y2: string)
    requires ':' !in y && ':' !in y2 && x + ":" + y == x2 + ":" + y2
    ensures x == x2 && y == y2
  {
    var s := x + ":" + y;
    assert s[|s| - |y| - 1] == ':';
    assert s[|s| - |y2| - 1] == ':';
    assert forall j :: |s| - |y2| <= j < |s| ==> s[j] == y2[j - (|s| - |y2|)];
    assert forall j :: |s| - |y| <= j < |s| ==> s[j] == y[j - (|s| - |y|)];
    assert y == s[|s| - |y|..] == y2;
    assert x == s[..|x|] == x2;
  }

  /** Distinct queries never share a cache entry: the cached text determines
      the query key, both score bounds, the limit and the offset. */
  lemma CacheContentInjective(q1: string, s1: int, e1: Option<int>, l1: int, o1: int,
                              q2: string, s2: int, e2: Option<int>, l2: int, o2: int)
    requires CacheContent(q1, s1, e1, l1, o1) == CacheContent(q2, s2, e2, l2, o2)
    ensures q1 == q2 && s1 == s2 && e1 == e2 && l1 == l2 && o1 == o2
  {
    LastColonSplit(q1 + ":" + IntToString(s1) + ":" + ScoreText(e1) + ":" + IntToString(l1), IntToString(o1),
                   q2 + ":" + IntToString(s2) + ":" + ScoreText(e2) + ":" + IntToString(l2), IntToString(o2));
    LastColonSplit(q1 + ":" + IntToString(s1) + ":" + ScoreText(e1), IntToString(l1),
                   q2 + ":" + IntToString(s2) + ":" + ScoreText(e2), IntToString(l2));
    LastColonSplit(q1 + ":" + IntToString(s1), ScoreText(e1), q2 + ":" + IntToString(s2), ScoreText(e2));
    LastColonSplit(q1, IntToString(s1), q2, IntToString(s2));
    IntToStringInjective(s1, s2);
    IntToStringInjective(l1, l2);
    IntToStringInjective(o1, o2);
    ScoreTextInjective(e1, e2);
  }

  /** Contrapositive of `CacheContentInjective` for distinct query keys. */
  lemma CacheContentDistinct(q1: string, s1: int, e1: Option<int>, l1: int, o1: int,
                             q2: string, s2: int, e2: Option<int>, l2: int, o2: int)
    requires q1 != q2
    ensures CacheContent(q1, s1, e1, l1, o1) != CacheContent(q2, s2, e2, l2, o2)
  {
    if CacheContent(q1, s1, e1, l1, o1) == CacheContent(q2, s2, e2, l2, o2) {
      CacheContentInjective(q1, s1, e1, l1, o1, q2, s2, e2, l2, o2);
      assert false;
    }
  }

  // ---------------------------------------------------------------- one query

  /** The parameters of `get_logs`; times are instants in microseconds. */
  datatype Query = Query(
    host: string, app: Option<string>, component: Option<string>,
    level: Option<string>, refreshId: Option<string>, step: Option<string>,
    start: Option<int>, end: Option<int>, search: Option<string>,
    limit: int, offset: int)

  /** `start_score`: whole seconds of the start time, else 0. */
  function MinScore(q: Query): int {
    if q.start.Some? then Seconds(q.start.value) else 0
  }

  /** `end_score`: whole seconds of the end time, else `+inf`. */
  function MaxScore(q: Query): Option<int> {
    if q.end.Some? then Some(Seconds(q.end.value)) else None
  }

  function QueryKeyOf(q: Query): string {
    QueryKey(BaseKey(q.host, q.app, q.component), q.level, q.refreshId, q.step)
  }

  /** The Redis key the result is cached under (the digest left out). */
  function CacheKey(q: Query): string {
    "cache:" + CacheContent(QueryKeyOf(q), MinScore(q), MaxScore(q), q.limit, q.offset)
  }

  /** The search text is not part of the cache key: a query that differs from
      a cached one only in its search gets the cached page. */
  lemma CacheKeyIgnoresSearch(q: Query, search: Option<string>)
    ensures CacheKey(q.(search := search)) == CacheKey(q)
  {
  }

  /** The filters are part of the cache key, even though the fetch ignores them. */
  lemma CacheKeySeesFilters(q: Query, level: string)
    requires level != "" && !Truthy(q.level)
    ensures CacheKey(q.(level := Some(level))) != CacheKey(q)
  {
    var q2 := q.(level := Some(level));
    var base := BaseKey(q.host, q.app, q.component);
    assert QueryKeyOf(q2)[|base| + 1] == 'l';
    assert QueryKeyOf(q) == base || QueryKeyOf(q)[|base| + 1] in "rs";
    assert QueryKeyOf(q2) != QueryKeyOf(q);
    CacheContentDistinct(QueryKeyOf(q2), MinScore(q2), MaxScore(q2), q2.limit, q2.offset,
                         QueryKeyOf(q), MinScore(q), MaxScore(q), q.limit, q.offset);
    var c1 := CacheContent(QueryKeyOf(q2), MinScore(q2), MaxScore(q2), q2.limit, q2.offset);
    var c2 := CacheContent(QueryKeyOf(q), MinScore(q), MaxScore(q), q.limit, q.offset);
    assert ("cache:" + c1)[6..] == c1 && ("cache:" + c2)[6..] == c2;
  }

  /** A set key the merge passes over: the level, refresh and step indexes. */
  predicate Skipped(key: string) {
    Contains(key, ":level:") || Contains(key, ":refresh:") || Contains(key, ":step:")
  }

  /** The `for sorted_set_key in scan_iter(...)` loop of
      `_get_wildcard_logs_from_sorted_sets`: each matching set that is not an
      index contributes its newest `limit` entries in the score range, until
      `limit` entries are collected. */
  function Collect(sets: Sets<Member>, keys: seq<string>, pattern: string, min: int, max: Option<int>,
                   limit: int, acc: seq<Member>): seq<Member>
    decreases |keys|
  {
    if keys == [] then acc
    else if !GlobMatch(pattern, keys[0]) || Skipped(keys[0]) then Collect(sets, keys[1..], pattern, min, max, limit, acc)
    else
      var more := acc + ZRevRangeByScore(SetAt(sets, keys[0]), max, min, limit);
      if |more| >= limit then more else Collect(sets, keys[1..], pattern, min, max, limit, more)
  }

  /** `_get_wildcard_logs_from_sorted_sets`; `scan` is the order in which the
      server's `SCAN` visits its keys. */
  function WildcardLogs(sets: Sets<Member>, scan: seq<string>, pattern: string, min: int, max: Option<int>,
                        limit: int): seq<Member> {
    PyTake(Collect(sets, scan, SetPattern(pattern), min, max, limit, []), limit)
  }

  /** Every collected entry is already in the accumulator or comes from a
      matching, non-index set, with a score in range. */
  lemma {:induction false} CollectSources(sets: Sets<Member>, keys: seq<string>, pattern: string, min: int,
                                          max: Option<int>, limit: int, acc: seq<Member>, m: Member)
    requires m in Collect(sets, keys, pattern, min, max, limit, acc)
    ensures m in acc || exists k, e :: (k in keys && GlobMatch(pattern, k) && !Skipped(k) && e in SetAt(sets, k)
      && e.member == m && min <= e.score && (max.None? || e.score <= max.value))
    decreases |keys|
  {
    if keys != [] {
      var k := keys[0];
      if !GlobMatch(pattern, k) || Skipped(k) {
        CollectSources(sets, keys[1..], pattern, min, max, limit, acc, m);
      } else {
        var got := ZRevRangeByScore(SetAt(sets, k), max, min, limit);
        var more := acc + got;
        if m !in acc && m in got {
          var e :| e in SetAt(sets, k) && e.member == m && min <= e.score && (max.None? || e.score <= max.value);
        } else if |more| < limit {
          CollectSources(sets, keys[1..], pattern, min, max, limit, more, m);
        }
      }
    }
  }

  /** The merge returns at most `limit` entries, each from a matching set
      other than an index, with a score in range. */
  lemma WildcardLogsSpec(sets: Sets<Member>, scan: seq<string>, pattern: string, min: int, max: Option<int>,
                         limit: int, m: Member)
    ensures limit >= 0 ==> |WildcardLogs(sets, scan, pattern, min, max, limit)| <= limit
    ensures m in WildcardLogs(sets, scan, pattern, min, max, limit) ==>
      exists k, e :: (k in scan && GlobMatch(SetPattern(pattern), k) && !Skipped(k) && e in SetAt(sets, k)
        && e.member == m && min <= e.score && (max.None? || e.score <= max.value))
  {
    var all := Collect(sets, scan, SetPattern(pattern), min, max, limit, []);
    if limit >= 0 {
      WildcardLogsBound(sets, scan, pattern, min, max, limit);
    }
    if m in WildcardLogs(sets, scan, pattern, min, max, limit) {
      assert m in all by {
        var t := PyTake(all, limit);
        var i :| 0 <= i < |t| && t[i] == m;
        assert t == all[..PyIndex(limit, |all|)];
      }
      CollectSources(sets, scan, SetPattern(pattern), min, max, limit, [], m);
    }
  }

  /** The merge without its early stop: the newest `limit` in-range entries of
      every matching set other than an index, newest first within each set,
      the sets one after another in `SCAN` order and never re-sorted. */
  function Contributions(sets: Sets<Member>, keys: seq<string>, pattern: string, min: int, max: Option<int>,
                         limit: int): seq<Member>
    decreases |keys|
  {
    if keys == [] then []
    else
      (if GlobMatch(pattern, keys[0]) && !Skipped(keys[0]) then ZRevRangeByScore(SetAt(sets, keys[0]), max, min, limit) else [])
      + Contributions(sets, keys[1..], pattern, min, max, limit)
  }

  /** The loop stops early only once it has `limit` entries: what it collects
      is a prefix of the accumulator followed by every contribution, and is
      all of it unless it already reached `limit`. */
  lemma {:induction false} CollectPrefix(sets: Sets<Member>, keys: seq<string>, pattern: string, min: int,
                                         max: Option<int>, limit: int, acc: seq<Member>)
    ensures var c, all := Collect(sets, keys, pattern, min, max, limit, acc), acc + Contributions(sets, keys, pattern, min, max, limit);
      |c| <= |all| && c == all[..|c|] && (c == all || |c| >= limit)
    decreases |keys|
  {
    if keys != [] {
      var k := keys[0];
      var rest := Contributions(sets, keys[1..], pattern, min, max, limit);
      if !GlobMatch(pattern, k) || Skipped(k) {
        assert acc + Contributions(sets, keys, pattern, min, max, limit) == acc + rest;
        CollectPrefix(sets, keys[1..], pattern, min, max, limit, acc);
      } else {
        var got := ZRevRangeByScore(SetAt(sets, k), max, min, limit);
        var more := acc + got;
        var c := Collect(sets, keys, pattern, min, max, limit, acc);
        assert Contributions(sets, keys, pattern, min, max, limit) == got + rest;
        if |more| < limit {
          assert c == Collect(sets, keys[1..], pattern, min, max, limit, more);
          CollectPrefix(sets, keys[1..], pattern, min, max, limit, more);
        } else {
          assert c == more;
          PrefixOfItself(more, rest);
        }
        Regroup(c, acc, got, rest, limit);
      }
    }
  }

  /** A sequence is a prefix of itself followed by anything. */
  lemma PrefixOfItself<T>(a: seq<T>, b: seq<T>)
    ensures |a| <= |a + b| && a == (a + b)[..|a|]
  {
  }

  /** The prefix facts about `(acc + got) + rest` hold of `acc + (got + rest)`. */
  lemma Regroup<T>(c: seq<T>, acc: seq<T>, got: seq<T>, rest: seq<T>, limit: int)
    requires |c| <= |acc + got + rest| && c == (acc + got + rest)[..|c|] && (c == acc + got + rest || |c| >= limit)
    ensures |c| <= |acc + (got + rest)| && c == (acc + (got + rest))[..|c|] && (c == acc + (got + rest) || |c| >= limit)
  {
    assert acc + (got + rest) == acc + got + rest;
  }

  /** With a non-negative limit, the merge is the first `limit` entries of the
      contributions of the matching sets, taken in `SCAN` order. */
  lemma WildcardLogsShape(sets: Sets<Member>, scan: seq<string>, pattern: string, min: int, max: Option<int>, limit: nat)
    ensures WildcardLogs(sets, scan, pattern, min, max, limit)
      == PyTake(Contributions(sets, scan, SetPattern(pattern), min, max, limit), limit)
  {
    var c := Collect(sets, scan, SetPattern(pattern), min, max, limit, []);
    var all := Contributions(sets, scan, SetPattern(pattern), min, max, limit);
    CollectPrefix(sets, scan, SetPattern(pattern), min, max, limit, []);
    assert [] + all == all;
    PyTakePrefix(c, limit);
    PyTakePrefix(all, limit);
  }

  /** When the contributions stay under `limit` they hold every in-range entry
      of every matching set other than an index. */
  lemma {:induction false} ContributionsComplete(sets: Sets<Member>, keys: seq<string>, pattern: string, min: int,
                                                 max: Option<int>, limit: int)
    requires |Contributions(sets, keys, pattern, min, max, limit)| < limit
    ensures forall k, e ::
      (k in keys && GlobMatch(pattern, k) && !Skipped(k) && e in SetAt(sets, k)
       && min <= e.score && (max.None? || e.score <= max.value)) ==> e.member in Contributions(sets, keys, pattern, min, max, limit)
    decreases |keys|
  {
    if keys != [] {
      var k0 := keys[0];
      var here := if GlobMatch(pattern, k0) && !Skipped(k0) then ZRevRangeByScore(SetAt(sets, k0), max, min, limit) else [];
      var rest := Contributions(sets, keys[1..], pattern, min, max, limit);
      assert Contributions(sets, keys, pattern, min, max, limit) == here + rest;
      ContributionsComplete(sets, keys[1..], pattern, min, max, limit);
      if GlobMatch(pattern, k0) && !Skipped(k0) {
        ZRevRangeByScoreAll(SetAt(sets, k0), max, min, limit);
      }
    }
  }

  /** A merge that returns fewer than `limit` entries returns every in-range
      entry of every matching set other than an index. */
  lemma WildcardLogsComplete(sets: Sets<Member>, scan: seq<string>, pattern: string, min: int, max: Option<int>, limit: int)
    requires |WildcardLogs(sets, scan, pattern, min, max, limit)| < limit
    ensures forall k, e ::
      (k in scan && GlobMatch(SetPattern(pattern), k) && !Skipped(k) && e in SetAt(sets, k)
       && min <= e.score && (max.None? || e.score <= max.value)) ==> e.member in WildcardLogs(sets, scan, pattern, min, max, limit)
  {
    var all := Contributions(sets, scan, SetPattern(pattern), min, max, limit);
    WildcardLogsShape(sets, scan, pattern, min, max, limit);
    PyTakePrefix(all, limit);
    ContributionsComplete(sets, scan, SetPattern(pattern), min, max, limit);
  }

  /** What one stored member adds to a page: nothing for text that is not
      JSON or a document the search rejects, else the enriched document. */
  function PageItem(m: Member, q: Query): seq<Log> {
    match m
    case NotJson(_) => []
    case Doc(d) =>
      if Truthy(q.search) && !Mentions(MessageOf(d), q.search.value) then []
      else [EnrichFromSet(d, q.host, q.app, q.component)]
  }

  /** The `for log_json in log_keys[offset:offset + limit]` loop of `get_logs`. */
  function PageLogs(entries: seq<Member>, q: Query): (logs: seq<Log>)
    ensures |logs| <= |entries|
    decreases |entries|
  {
    if entries == [] then []
    else PageLogs(entries[..|entries| - 1], q) + PageItem(entries[|entries| - 1], q)
  }

  /** Every log of a page names the query's host, application and component
      and, under a search, mentions the search text. */
  lemma {:induction false} PageLogsSpec(entries: seq<Member>, q: Query)
    ensures forall e :: e in PageLogs(entries, q) ==>
      Tagged(e, q.host, q.app, q.component)
      && (Truthy(q.search) ==> Mentions(LogMessage(e), q.search.value))
    decreases |entries|
  {
    if entries != [] {
      PageLogsSpec(entries[..|entries| - 1], q);
    }
  }

  /** The cached value of one query: the page, the number of entries fetched
      before search and pagination, and the paging parameters. The reply also
      holds `query_time_ms: 0` and `source: 'redis_cache'`. */
  datatype Page = Page(logs: seq<Log>, total: int, limit: int, offset: int)

  /** `get_logs` on a cache miss. The fetch always uses the base pattern: the
      level, refresh and step filters only change the cache key. */
  function Fetch(sets: Sets<Member>, q: Query, scan: seq<string>): Page {
    PageOf(WildcardLogs(sets, scan, BaseKey(q.host, q.app, q.component), MinScore(q), MaxScore(q), q.limit + q.offset), q)
  }

  /** The page cut from the fetched entries: the slice at the offset, then the search. */
  function PageOf(entries: seq<Member>, q: Query): Page {
    Page(PageLogs(PySlice(entries, q.offset, q.offset + q.limit), q), |entries|, q.limit, q.offset)
  }

  /** A fetched page holds at most `limit` logs, never more than were fetched,
      each from the queried host and matching the search. */
  lemma FetchSpec(sets: Sets<Member>, q: Query, scan: seq<string>)
    requires q.limit >= 0 && q.offset >= 0
    ensures var p := Fetch(sets, q, scan);
      |p.logs| <= q.limit && |p.logs| <= p.total
      && p.total <= q.limit + q.offset
      && forall e :: e in p.logs ==> (Tagged(e, q.host, q.app, q.component)
           && (Truthy(q.search) ==> Mentions(LogMessage(e), q.search.value)))
  {
    FetchBounds(sets, q, scan);
    FetchTagged(sets, q, scan);
  }

  /** The size half of `FetchSpec`. */
  lemma FetchBounds(sets: Sets<Member>, q: Query, scan: seq<string>)
    requires q.limit >= 0 && q.offset >= 0
    ensures var p := Fetch(sets, q, scan);
      |p.logs| <= q.limit && |p.logs| <= p.total && p.total <= q.limit + q.offset
  {
    var pattern, min, max := BaseKey(q.host, q.app, q.component), MinScore(q), MaxScore(q);
    var entries := WildcardLogs(sets, scan, pattern, min, max, q.limit + q.offset);
    WildcardLogsBound(sets, scan, pattern, min, max, q.limit + q.offset);
    PageBound(entries, q);
  }

  /** The content half of `FetchSpec`. */
  lemma FetchTagged(sets: Sets<Member>, q: Query, scan: seq<string>)
    requires q.limit >= 0 && q.offset >= 0
    ensures forall e :: e in Fetch(sets, q, scan).logs ==> (Tagged(e, q.host, q.app, q.component)
      && (Truthy(q.search) ==> Mentions(LogMessage(e), q.search.value)))
  {
    var entries := WildcardLogs(sets, scan, BaseKey(q.host, q.app, q.component), MinScore(q), MaxScore(q), q.limit + q.offset);
    assert Fetch(sets, q, scan) == PageOf(entries, q);
    PageOfSpec(entries, q);
  }

  /** A page cut from at most `limit + offset` entries. */
  lemma PageBound(entries: seq<Member>, q: Query)
    requires q.limit >= 0 && q.offset >= 0 && |entries| <= q.limit + q.offset
    ensures var p := PageOf(entries, q); |p.logs| <= q.limit && |p.logs| <= p.total <= q.limit + q.offset
  {
    PySliceWindow(entries, q.offset, q.limit);
  }

  /** The merge returns at most `limit` entries. */
  lemma WildcardLogsBound(sets: Sets<Member>, scan: seq<string>, pattern: string, min: int, max: Option<int>, limit: nat)
    ensures |WildcardLogs(sets, scan, pattern, min, max, limit)| <= limit
  {
    PyTakePrefix(Collect(sets, scan, SetPattern(pattern), min, max, limit, []), limit);
  }

  /** The page cut from any fetched entries. */
  lemma PageOfSpec(entries: seq<Member>, q: Query)
    ensures forall e :: e in PageOf(entries, q).logs ==> (Tagged(e, q.host, q.app, q.component)
      && (Truthy(q.search) ==> Mentions(LogMessage(e), q.search.value)))
  {
    PageLogsSpec(PySlice(entries, q.offset, q.offset + q.limit), q);
  }

  /** The filters never change which entries are fetched: two queries that
      differ only in level, refresh id or step get the same page. */
  lemma FiltersDoNotChangeFetch(sets: Sets<Member>, q: Query, scan: seq<string>,
                                level: Option<string>, refreshId: Option<string>, step: Option<string>)
    ensures Fetch(sets, q.(level := level, refreshId := refreshId, step := step), scan) == Fetch(sets, q, scan)
  {
    var q2 := q.(level := level, refreshId := refreshId, step := step);
    assert MinScore(q2) == MinScore(q) && MaxScore(q2) == MaxScore(q);
    var entries := WildcardLogs(sets, scan, BaseKey(q.host, q.app, q.component), MinScore(q), MaxScore(q), q.limit + q.offset);
    assert Fetch(sets, q2, scan) == PageOf(entries, q2);
    PageLogsFiltersIrrelevant(PySlice(entries, q.offset, q.offset + q.limit), q, q2);
  }

  lemma {:induction false} PageLogsFiltersIrrelevant(entries: seq<Member>, q: Query, q2: Query)
    requires q2.host == q.host && q2.app == q.app && q2.component == q.component && q2.search == q.search
    ensures PageLogs(entries, q2) == PageLogs(entries, q)
    decreases |entries|
  {
    if entries != [] {
      PageLogsFiltersIrrelevant(entries[..|entries| - 1], q, q2);
    }
  }

  // ---------------------------------------------------------------- statistics

  function FieldOf(h: map<string, int>, f: string): int {
    if f in h then h[f] else 0
  }

  /** `total_stats[k] = total_stats.get(k, 0) + int(v)` for every field of one hash. */
  function AddHash(total: map<string, int>, h: map<string, int>): (r: map<string, int>)
    ensures r.Keys == total.Keys + h.Keys
  {
    map f | f in total.Keys + h.Keys :: FieldOf(total, f) + FieldOf(h, f)
  }

  /** Every field of `h` outside `todo` has been added into `total`, giving `r`. */
  predicate AddedBut(total: map<string, int>, h: map<string, int>, todo: set<string>, r: map<string, int>) {
    && todo <= h.Keys
    && r.Keys == total.Keys + (h.Keys - todo)
    && forall f :: f in r ==> r[f] == FieldOf(total, f) + (if f in todo then 0 else FieldOf(h, f))
  }

  /** Adding one more field of `h` keeps `AddedBut`. */
  lemma AddedStep(total: map<string, int>, h: map<string, int>, todo: set<string>, r: map<string, int>, f: string)
    requires AddedBut(total, h, todo, r) && f in todo
    ensures AddedBut(total, h, todo - {f}, r[f := FieldOf(r, f) + h[f]])
  {
  }

  /** With every field added, the hash is `AddHash`. */
  lemma AddedAll(total: map<string, int>, h: map<string, int>, r: map<string, int>)
    requires AddedBut(total, h, {}, r)
    ensures r == AddHash(total, h)
  {
    var want := AddHash(total, h);
    assert forall f :: f in r ==> r[f] == want[f];
    SameEntries(r, want);
  }

  lemma SameEntries<K, V>(a: map<K, V>, b: map<K, V>)
    requires a.Keys == b.Keys && forall k :: k in a ==> a[k] == b[k]
    ensures a == b
  {
  }

  /** The statistics hashes the roll-up reads, in `SCAN` order. */
  function StatsHashes(counters: map<string, map<string, int>>, keys: seq<string>, pattern: string): seq<map<string, int>> {
    if keys == [] then []
    else
      var k := keys[|keys| - 1];
      StatsHashes(counters, keys[..|keys| - 1], pattern)
        + (if GlobMatch(pattern, k) then [if k in counters then counters[k] else map[]] else [])
  }

  function SumHashes(hs: seq<map<string, int>>): map<string, int> {
    if hs == [] then map[] else AddHash(SumHashes(hs[..|hs| - 1]), hs[|hs| - 1])
  }

  /** The sum of one field over a list of hashes. */
  function FieldSum(hs: seq<map<string, int>>, f: string): int {
    if hs == [] then 0 else FieldSum(hs[..|hs| - 1], f) + FieldOf(hs[|hs| - 1], f)
  }

  /** The roll-up holds exactly the fields some hash has, each the sum of its
      values over all the hashes. */
  lemma {:induction false} SumHashesSpec(hs: seq<map<string, int>>, f: string)
    ensures f in SumHashes(hs) <==> exists j :: 0 <= j < |hs| && f in hs[j]
    ensures FieldOf(SumHashes(hs), f) == FieldSum(hs, f)
  {
    if hs != [] {
      var init := hs[..|hs| - 1];
      SumHashesSpec(init, f);
      assert forall j :: 0 <= j < |init| ==> init[j] == hs[j];
      if f in SumHashes(init) {
        var j :| 0 <= j < |init| && f in init[j];
        assert f in hs[j];
      }
      if f in hs[|hs| - 1] {
      } else if exists j :: 0 <= j < |hs| && f in hs[j] {
        var j :| 0 <= j < |hs| && f in hs[j];
        assert j < |init| && f in init[j];
      }
    }
  }

  /** `get_stats`'s pattern without an application. */
  function StatsPattern(host: string): string {
    "logs:stats:" + host + ":*"
  }

  /** The key `get_stats` builds: one application's statistics hash, or the
      pattern over every application of the host. */
  function StatsQueryKey(host: string, app: Option<string>): string {
    if Truthy(app) then StatsKey(host, app.value) else StatsPattern(host)
  }

  /** `get_stats` aggregates exactly when its key holds `*`: always without an
      application, and with one when the host or the application holds `*`. */
  lemma StatsKeyWildcard(host: string, app: Option<string>)
    ensures '*' in StatsQueryKey(host, app) <==> !Truthy(app) || '*' in host || '*' in app.value
  {
    var tail := ":" + (if Truthy(app) then app.value else "*");
    assert StatsQueryKey(host, app) == "logs:stats:" + host + tail;
    assert '*' !in "logs:stats:";
    assert '*' in tail <==> !Truthy(app) || '*' in app.value;
  }

  // ---------------------------------------------------------------- search

  /** The inner loop of `search_logs` over one set's newest entries: a
      non-empty document that mentions the query is enriched with the key's
      host, application and component, until `limit` results are collected. */
  function SearchSet(entries: seq<Member>, query: string, host: string, app: string, component: string,
                     limit: int, acc: seq<Log>): seq<Log>
    decreases |entries|
  {
    if entries == [] then acc
    else
      match entries[0]
      case NotJson(_) => SearchSet(entries[1..], query, host, app, component, limit, acc)
      case Doc(d) =>
        if d != map[] && Mentions(MessageOf(d), query) then
          var more := acc + [EnrichFromSet(d, host, Some(app), Some(component))];
          if |more| >= limit then more else SearchSet(entries[1..], query, host, app, component, limit, more)
        else SearchSet(entries[1..], query, host, app, component, limit, acc)
  }

  /** The outer loop of `search_logs` over the host's sets. */
  function SearchCollect(sets: Sets<Member>, keys: seq<string>, host: string, query: string, limit: int,
                         acc: seq<Log>): seq<Log>
    decreases |keys|
  {
    if keys == [] then acc
    else
      var k := keys[0];
      var parts := Split(k, ':');
      if !GlobMatch("logs:" + host + ":*", k) || Skipped(k) || |parts| < 4 then
        SearchCollect(sets, keys[1..], host, query, limit, acc)
      else
        var more := SearchSet(ZRevRange(SetAt(sets, k), 0, 100), query, parts[1], parts[2], parts[3], limit, acc);
        if |more| >= limit then more else SearchCollect(sets, keys[1..], host, query, limit, more)
  }

  /** The reply of `search_logs`. */
  datatype SearchResult = SearchResult(logs: seq<Log>, total: int, query: string)

  function HostSearch(sets: Sets<Member>, scan: seq<string>, host: string, query: string, limit: int): SearchResult {
    var found := SearchCollect(sets, scan, host, query, limit, []);
    SearchResult(PyTake(SortDescByText(found, LogTimestamp), limit), |found|, query)
  }

  lemma {:induction false} SearchSetMentions(entries: seq<Member>, query: string, host: string, app: string,
                                             component: string, limit: int, acc: seq<Log>)
    requires forall e :: e in acc ==> Mentions(LogMessage(e), query)
    ensures forall e :: e in SearchSet(entries, query, host, app, component, limit, acc) ==> Mentions(LogMessage(e), query)
    decreases |entries|
  {
    if entries != [] {
      match entries[0]
      case NotJson(_) =>
        SearchSetMentions(entries[1..], query, host, app, component, limit, acc);
      case Doc(d) =>
        if d != map[] && Mentions(MessageOf(d), query) {
          var more := acc + [EnrichFromSet(d, host, Some(app), Some(component))];
          SearchSetMentions(entries[1..], query, host, app, component, limit, more);
        } else {
          SearchSetMentions(entries[1..], query, host, app, component, limit, acc);
        }
    }
  }

  lemma {:induction false} SearchCollectMentions(sets: Sets<Member>, keys: seq<string>, host: string, query: string,
                                                 limit: int, acc: seq<Log>)
    requires forall e :: e in acc ==> Mentions(LogMessage(e), query)
    ensures forall e :: e in SearchCollect(sets, keys, host, query, limit, acc) ==> Mentions(LogMessage(e), query)
    decreases |keys|
  {
    if keys != [] {
      var k := keys[0];
      var parts := Split(k, ':');
      if !GlobMatch("logs:" + host + ":*", k) || Skipped(k) || |parts| < 4 {
        SearchCollectMentions(sets, keys[1..], host, query, limit, acc);
      } else {
        var entries := ZRevRange(SetAt(sets, k), 0, 100);
        SearchSetMentions(entries, query, parts[1], parts[2], parts[3], limit, acc);
        var more := SearchSet(entries, query, parts[1], parts[2], parts[3], limit, acc);
        if |more| < limit {
          SearchCollectMentions(sets, keys[1..], host, query, limit, more);
        }
      }
    }
  }

  /** Taking a prefix of a reordering of `found` keeps only items of `found`, and no more of them. */
  lemma TakeOfPermutation<T>(found: seq<T>, sorted: seq<T>, limit: int)
    requires multiset(sorted) == multiset(found)
    ensures PyTake(sorted, limit) == sorted[..PyIndex(limit, |sorted|)]
    ensures forall e :: e in PyTake(sorted, limit) ==> e in found
    ensures limit >= 0 ==> |PyTake(sorted, limit)| <= limit
    ensures |PyTake(sorted, limit)| <= |found|
  {
    var r := PyTake(sorted, limit);
    assert r == sorted[..PyIndex(limit, |sorted|)];
    forall e | e in r ensures e in found {
      assert e in multiset(sorted);
    }
    assert |sorted| == |found| by {
      assert |multiset(sorted)| == |multiset(found)|;
    }
  }

  /** Every search result mentions the query, the results are newest first,
      there are at most `limit` of them, and `total` counts all that were
      collected. */
  lemma SearchSpec(sets: Sets<Member>, scan: seq<string>, host: string, query: string, limit: int)
    ensures var r := HostSearch(sets, scan, host, query, limit);
      && (forall e :: e in r.logs ==> Mentions(LogMessage(e), query))
      && (forall i :: 0 < i < |r.logs| ==> LexLe(LogTimestamp(r.logs[i]), LogTimestamp(r.logs[i - 1])))
      && (limit >= 0 ==> |r.logs| <= limit)
      && |r.logs| <= r.total
  {
    var found := SearchCollect(sets, scan, host, query, limit, []);
    SearchCollectMentions(sets, scan, host, query, limit, []);
    SortDescByTextSpec(found, LogTimestamp);
    TakeOfPermutation(found, SortDescByText(found, LogTimestamp), limit);
  }

  // ---------------------------------------------------------------- time filter

  /** `parse_time_filter`: `last hour`, then `today`, then `yesterday`, tested
      case-insensitively in that order; anything else gives no bounds. */
  function TimeFilter(s: string, now: int): (r: (Option<int>, Option<int>))
    ensures s == "" ==> r == (None, None)
    ensures s != "" && Contains(Lower(s), "last hour") ==> r == (Some(now - MicrosPerHour), Some(now))
    ensures s != "" && !Contains(Lower(s), "last hour") && Contains(Lower(s), "today") ==>
      r == (Some(StartOfDay(now)), Some(now))
    ensures s != "" && !Contains(Lower(s), "last hour") && !Contains(Lower(s), "today") && Contains(Lower(s), "yesterday") ==>
      r == (Some(StartOfDay(now - MicrosPerDay)), Some(EndOfDay(now - MicrosPerDay)))
    ensures s != "" && !Contains(Lower(s), "last hour") && !Contains(Lower(s), "today") && !Contains(Lower(s), "yesterday") ==>
      r == (None, None)
    ensures r.0.None? <==> r.1.None?
    ensures r.0.Some? ==> r.0.value <= r.1.value <= now
  {
    if s == "" then (None, None)
    else if Contains(Lower(s), "last hour") then (Some(now - MicrosPerHour), Some(now))
    else if Contains(Lower(s), "today") then (Some(StartOfDay(now)), Some(now))
    else if Contains(Lower(s), "yesterday") then
      (Some(StartOfDay(now - MicrosPerDay)), Some(EndOfDay(now - MicrosPerDay)))
    else (None, None)
  }

  /** The `yesterday` window is the whole previous calendar day: it ends one
      microsecond before today's midnight. */
  lemma YesterdayEndsAtMidnight(now: int)
    ensures EndOfDay(now - MicrosPerDay) + 1 == StartOfDay(now)
    ensures StartOfDay(now - MicrosPerDay) + MicrosPerDay == StartOfDay(now)
  {
    var d := now - MicrosPerDay;
    assert (now - MicrosPerDay) % MicrosPerDay == now % MicrosPerDay;
  }

  // ---------------------------------------------------------------- routes

  /** `/logger/redis/<host>`: `app=all` means every application, the limit is
      capped at 500 (default 100), the offset defaults to 0, and a `time`
      parameter becomes the two bounds. */
  function RouteQuery(host: string, app: Option<string>, component: Option<string>, level: Option<string>,
                      refreshId: Option<string>, step: Option<string>, search: Option<string>,
                      limit: Option<int>, offset: Option<int>, time: Option<string>, now: int): (q: Query)
    ensures q.limit <= RouteLimitCap
    ensures q.limit == if limit.None? then 100 else if limit.value < RouteLimitCap then limit.value else RouteLimitCap
    ensures q.app.None? <==> app.None? || app.value == "all"
    ensures q.offset == if offset.None? then 0 else offset.value
    ensures q.app.Some? ==> q.app == app
    ensures (q.start, q.end) == if time.Some? && time.value != "" then TimeFilter(time.value, now) else (None, None)
    ensures time.None? ==> q.start.None? && q.end.None?
    ensures q.host == host && q.component == component && q.level == level && q.refreshId == refreshId
      && q.step == step && q.search == search
  {
    var a := if app.None? then "all" else app.value;
    var l := if limit.None? then 100 else limit.value;
    var window := if time.Some? && time.value != "" then TimeFilter(time.value, now) else (None, None);
    Query(host, if a != "all" then Some(a) else None, component, level, refreshId, step,
          window.0, window.1, search, if l < RouteLimitCap then l else RouteLimitCap,
          if offset.None? then 0 else offset.value)
  }

  /** The reply of `/logger/search/redis/<host>`. */
  datatype SearchReply = Found(result: SearchResult) | QueryRequired

  /** The API object: the Redis server it reads and the `cache:` strings it
      writes, with their expiries. */
  class RedisLogApi {
    const redis: RedisClient
    var cache: map<string, Page>
    var cacheTtl: map<string, int>

    constructor(r: RedisClient)
      ensures redis == r && cache == map[] && cacheTtl == map[]
    {
      redis := r;
      cache := map[];
      cacheTtl := map[];
    }

    /** `get_logs`: a cached page is returned as it is; otherwise the page is
        fetched, cached for five minutes and returned. */
    method GetLogs(q: Query, scan: seq<string>) returns (page: Page)
      modifies this
      ensures CacheKey(q) in old(cache) ==> page == old(cache)[CacheKey(q)] && cache == old(cache) && cacheTtl == old(cacheTtl)
      ensures CacheKey(q) !in old(cache) ==>
        page == Fetch(redis.zsets, q, scan)
        && cache == old(cache)[CacheKey(q) := page]
        && cacheTtl == old(cacheTtl)[CacheKey(q) := QueryCacheTtl]
    {
      var key := CacheKey(q);
      if key in cache {
        return cache[key];
      }
      page := FetchPage(q, scan);
      cache := cache[key := page];
      cacheTtl := cacheTtl[key := QueryCacheTtl];
    }

    /** The uncached half of `get_logs`: fetch `limit + offset` entries, then
        slice out the page. */
    method FetchPage(q: Query, scan: seq<string>) returns (page: Page)
      ensures page == Fetch(redis.zsets, q, scan)
    {
      var base := BaseKey(q.host, q.app, q.component);
      var entries := WildcardEntries(base, MinScore(q), MaxScore(q), q.limit + q.offset, scan);
      var window := PySlice(entries, q.offset, q.offset + q.limit);
      var logs := PageLogsOf(window, q);
      page := Page(logs, |entries|, q.limit, q.offset);
    }

    /** The loop that parses each member of the window into a log. */
    method PageLogsOf(window: seq<Member>, q: Query) returns (logs: seq<Log>)
      ensures logs == PageLogs(window, q)
    {
      logs := [];
      for i := 0 to |window|
        invariant logs == PageLogs(window[..i], q)
      {
        assert window[..i + 1][..i] == window[..i];
        logs := logs + PageItem(window[i], q);
      }
      assert window[..|window|] == window;
    }

    /** `_get_wildcard_logs_from_sorted_sets`. */
    method WildcardEntries(pattern: string, min: int, max: Option<int>, limit: int, scan: seq<string>)
      returns (entries: seq<Member>)
      ensures entries == WildcardLogs(redis.zsets, scan, pattern, min, max, limit)
    {
      var setPattern := ReplaceFirst(pattern, "log:", "logs:");
      var all: seq<Member> := [];
      var i := 0;
      var full := false;
      while i < |scan| && !full
        invariant 0 <= i <= |scan|
        invariant full ==> Collect(redis.zsets, scan, setPattern, min, max, limit, []) == all
        invariant !full ==>
          Collect(redis.zsets, scan, setPattern, min, max, limit, []) == Collect(redis.zsets, scan[i..], setPattern, min, max, limit, all)
      {
        var key := scan[i];
        assert scan[i..][1..] == scan[i + 1..];
        if GlobMatch(setPattern, key) && !Skipped(key) {
          all := all + ZRevRangeByScore(SetAt(redis.zsets, key), max, min, limit);
          full := |all| >= limit;
        }
        i := i + 1;
      }
      if !full {
        assert scan[i..] == [];
      }
      entries := PyTake(all, limit);
    }

    /** `get_stats`: a key without `*` answers that one statistics hash; a key
        with `*` (every key without an application) is a `SCAN` pattern, and the
        answer is the field-by-field sum over every statistics hash it matches. */
    method GetStats(host: string, app: Option<string>, scan: seq<string>) returns (stats: map<string, int>)
      ensures var key := StatsQueryKey(host, app);
        '*' !in key ==> stats == redis.HGetAllCounters(key)
      ensures var key := StatsQueryKey(host, app);
        '*' in key ==> stats == SumHashes(StatsHashes(redis.counters, scan, key))
    {
      var pattern := StatsQueryKey(host, app);
      if '*' !in pattern {
        return redis.HGetAllCounters(pattern);
      }
      stats := map[];
      for i := 0 to |scan|
        invariant stats == SumHashes(StatsHashes(redis.counters, scan[..i], pattern))
      {
        assert scan[..i + 1][..i] == scan[..i];
        ghost var before := StatsHashes(redis.counters, scan[..i], pattern);
        var key := scan[i];
        if GlobMatch(pattern, key) {
          var h := redis.HGetAllCounters(key);
          stats := AddAll(stats, h);
          assert StatsHashes(redis.counters, scan[..i + 1], pattern) == before + [h];
          assert (before + [h])[..|before|] == before;
        } else {
          assert StatsHashes(redis.counters, scan[..i + 1], pattern) == before;
        }
      }
      assert scan[..|scan|] == scan;
    }

    /** The `for stat_key, value in app_stats.items()` loop. */
    static method AddAll(total: map<string, int>, h: map<string, int>) returns (r: map<string, int>)
      ensures r == AddHash(total, h)
    {
      r := total;
      var todo := h.Keys;
      while todo != {}
        invariant AddedBut(total, h, todo, r)
        decreases |todo|
      {
        var f :| f in todo;
        AddedStep(total, h, todo, r, f);
        r := r[f := FieldOf(r, f) + h[f]];
        todo := todo - {f};
      }
      AddedAll(total, h, r);
    }

    /** `search_logs`. */
    method SearchLogs(host: string, query: string, limit: int, scan: seq<string>) returns (r: SearchResult)
      ensures r == HostSearch(redis.zsets, scan, host, query, limit)
    {
      var pattern := "logs:" + host + ":*";
      var found: seq<Log> := [];
      var i := 0;
      var full := false;
      while i < |scan| && !full
        invariant 0 <= i <= |scan|
        invariant full ==> SearchCollect(redis.zsets, scan, host, query, limit, []) == found
        invariant !full ==>
          SearchCollect(redis.zsets, scan, host, query, limit, []) == SearchCollect(redis.zsets, scan[i..], host, query, limit, found)
      {
        var key := scan[i];
        assert scan[i..][1..] == scan[i + 1..];
        var parts := Split(key, ':');
        if GlobMatch(pattern, key) && !Skipped(key) && |parts| >= 4 {
          var entries := ZRevRange(SetAt(redis.zsets, key), 0, 100);
          found := SearchOneSet(entries, query, parts[1], parts[2], parts[3], limit, found);
          full := |found| >= limit;
        }
        i := i + 1;
      }
      if !full {
        assert scan[i..] == [];
      }
      r := SearchResult(PyTake(SortDescByText(found, LogTimestamp), limit), |found|, query);
    }

    /** The `for log_json in recent_log_entries` loop of `search_logs`. */
    static method SearchOneSet(entries: seq<Member>, query: string, host: string, app: string, component: string,
                               limit: int, acc: seq<Log>) returns (found: seq<Log>)
      ensures found == SearchSet(entries, query, host, app, component, limit, acc)
    {
      found := acc;
      var j := 0;
      while j < |entries|
        invariant 0 <= j <= |entries|
        invariant SearchSet(entries, query, host, app, component, limit, acc)
          == SearchSet(entries[j..], query, host, app, component, limit, found)
      {
        assert entries[j..][1..] == entries[j + 1..];
        if entries[j].Doc? && entries[j].fields != map[] && Mentions(MessageOf(entries[j].fields), query) {
          found := found + [EnrichFromSet(entries[j].fields, host, Some(app), Some(component))];
          if |found| >= limit {
            return;
          }
        }
        j := j + 1;
      }
      assert entries[j..] == [];
    }

    /** `/logger/search/redis/<host>`: an empty query is refused, the limit is
        capped at 500 (default 100). */
    method SearchRoute(host: string, query: string, limit: Option<int>, scan: seq<string>) returns (reply: SearchReply)
      ensures query == "" <==> reply.QueryRequired?
      ensures reply.Found? ==>
        var l := if limit.None? then 100 else if limit.value < RouteLimitCap then limit.value else RouteLimitCap;
        reply.result == HostSearch(redis.zsets, scan, host, query, l)
    {
      var l := if limit.None? then 100 else if limit.value < RouteLimitCap then limit.value else RouteLimitCap;
      if query == "" {
        return QueryRequired;
      }
      var r := SearchLogs(host, query, l, scan);
      return Found(r);
    }
  }
}
