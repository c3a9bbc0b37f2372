/** The older list-based log processor's storage side: the Redis lists it
    pushes every parsed entry onto (capped by LTRIM, or expiring), the error
    and list-creator lists its analysers fill, and the paginate-then-filter
    reads and the search over them. */
module LegacyService {
  import opened Wrappers
  import opened Text
  import opened PySeq
  import opened Store
  import opened LegacyProcessor

  // ------------------------------------------------------------------ the lists

  /** The Redis lists the processor uses, and their expiries in seconds. */
  datatype ListDb = ListDb(lists: map<string, seq<Entry>>, ttl: map<string, int>)

  /** `LRANGE key 0 -1`: a missing key reads as the empty list. */
  function ListAt(db: ListDb, key: string): seq<Entry> {
    if key in db.lists then db.lists[key] else []
  }

  /** `LPUSH key v`. */
  function LPushDb(db: ListDb, key: string, v: Entry): (r: ListDb)
    ensures ListAt(r, key) == [v] + ListAt(db, key)
    ensures forall k :: k != key ==> ListAt(r, k) == ListAt(db, k)
  {
    ListDb(db.lists[key := [v] + ListAt(db, key)], db.ttl)
  }

  /** `LTRIM key start stop`: a list trimmed to nothing is a deleted key, and
      its expiry goes with it. */
  function LTrimDb(db: ListDb, key: string, start: int, stop: int): ListDb {
    if key !in db.lists then db
    else
      var t := LTrim(db.lists[key], start, stop);
      if t == [] then ListDb(db.lists - {key}, db.ttl - {key})
      else ListDb(db.lists[key := t], db.ttl)
  }

  /** `EXPIRE key seconds` with a positive `seconds`: a missing key is left alone. */
  function ExpireDb(db: ListDb, key: string, seconds: int): ListDb {
    if key in db.lists then ListDb(db.lists, db.ttl[key := seconds]) else db
  }

  /** `LPUSH key v` then `LTRIM key 0 n-1`. */
  function PushTrimDb(db: ListDb, key: string, v: Entry, n: nat): ListDb
    requires n >= 1
  {
    LTrimDb(LPushDb(db, key, v), key, 0, n - 1)
  }

  /** `new` is `old` after pushing `v` and keeping the `cap` newest: `v` at
      the head, then the newest items of `old`, at most `cap` in all. */
  predicate Pushed(old_: seq<Entry>, new_: seq<Entry>, v: Entry, cap: nat) {
    |new_| == (if |old_| + 1 <= cap then |old_| + 1 else cap)
    && |new_| >= 1 && new_[0] == v && new_[1..] == old_[..|new_| - 1]
  }

  /** A push followed by a trim to the `n` newest never empties the list, so
      the key stays, keeps its expiry, and holds the capped list. */
  lemma PushTrimSpec(db: ListDb, key: string, v: Entry, n: nat)
    requires n >= 1
    ensures var r := PushTrimDb(db, key, v, n);
      && key in r.lists && Pushed(ListAt(db, key), ListAt(r, key), v, n) && r.ttl == db.ttl
      && (forall k :: k != key ==> ListAt(r, k) == ListAt(db, k))
  {
    var l := ListAt(db, key);
    var c := PushCapped(l, v, n);
    assert LTrim([v] + l, 0, n - 1) == c;
    assert c[1..] == l[..|c| - 1] by {
      assert c == ([v] + l)[..|c|];
      forall i | 0 <= i < |c| - 1 ensures c[1..][i] == l[i] {
        assert c[i + 1] == ([v] + l)[i + 1];
      }
    }
  }

  // ------------------------------------------------------------------ keys

  const RecentKey: string := "logs:recent"

  function HostKey(host: string): string { "logs:host:" + host }

  function AppKey(host: string, app: string): string { "logs:app:" + host + ":" + app }

  function CompKey(host: string, app: string, comp: string): string {
    "logs:comp:" + host + ":" + app + ":" + comp
  }

  /** The daily list of a `%Y%m%d` day. */
  function DailyKey(day: string): string { "logs:daily:" + day }

  function ErrorKey(host: string, app: string): string { "logs:errors:" + host + ":" + app }

  /** The list-creator event list of an application. */
  function ListCreatorKey(app: string): string { "logs:" + app + ":list-creator" }

  /** The sixth character of every key tells the kinds apart. */
  lemma KeyKinds(h: string, a: string, c: string, day: string)
    ensures RecentKey[5] == 'r' && HostKey(h)[5] == 'h' && AppKey(h, a)[5] == 'a'
    ensures CompKey(h, a, c)[5] == 'c' && DailyKey(day)[5] == 'd' && ErrorKey(h, a)[5] == 'e'
    ensures ListCreatorKey("auto-scraper")[5] == 'a' && ListCreatorKey("auto-scraper")[6] == 'u'
    ensures ListCreatorKey("sports-scheduler")[5] == 's' && AppKey(h, a)[6] == 'p'
  {
  }

  const RecentCap: nat := 1000
  const HostCap: nat := 500
  const AppCap: nat := 200
  const CompCap: nat := 100
  const ErrorCap: nat := 50
  const ListCreatorCap: nat := 50

  /** Seven days, and one day, in seconds. */
  const DailyTtl: int := 86400 * 7
  const DayTtl: int := 86400

  // ------------------------------------------------------------------ writes

  /** The four capped pushes of `_store_log_entry(entry)`. */
  function CappedPushesDb(db: ListDb, e: Entry): ListDb {
    var d1 := PushTrimDb(db, RecentKey, e, RecentCap);
    var d2 := PushTrimDb(d1, HostKey(e.host), e, HostCap);
    var d3 := PushTrimDb(d2, AppKey(e.host, e.application), e, AppCap);
    PushTrimDb(d3, CompKey(e.host, e.application, e.component), e, CompCap)
  }

  /** `_store_log_entry(entry)` on the day `day`: the four capped lists, then
      the daily list with its seven-day expiry. */
  function StoreEntryDb(db: ListDb, e: Entry, day: string): ListDb {
    var d := CappedPushesDb(db, e);
    ExpireDb(LPushDb(d, DailyKey(day), e), DailyKey(day), DailyTtl)
  }

  /** The four keys whose lists a store caps. */
  function CappedKeys(e: Entry): set<string> {
    {RecentKey, HostKey(e.host), AppKey(e.host, e.application), CompKey(e.host, e.application, e.component)}
  }

  /** The capped pushes change no expiry and no list but their four. */
  lemma CappedPushesFrame(db: ListDb, e: Entry)
    ensures var r := CappedPushesDb(db, e);
      && r.ttl == db.ttl && (forall k :: k !in CappedKeys(e) ==> ListAt(r, k) == ListAt(db, k))
  {
    var hk, ak, ck := HostKey(e.host), AppKey(e.host, e.application), CompKey(e.host, e.application, e.component);
    var d1 := PushTrimDb(db, RecentKey, e, RecentCap);
    PushTrimSpec(db, RecentKey, e, RecentCap);
    var d2 := PushTrimDb(d1, hk, e, HostCap);
    PushTrimSpec(d1, hk, e, HostCap);
    var d3 := PushTrimDb(d2, ak, e, AppCap);
    PushTrimSpec(d2, ak, e, AppCap);
    PushTrimSpec(d3, ck, e, CompCap);
  }

  /** After the capped pushes the entry heads the recent, host, application
      and component lists, which keep at most 1000, 500, 200 and 100 entries. */
  lemma CappedPushesSpec(db: ListDb, e: Entry)
    ensures var r := CappedPushesDb(db, e);
      && Pushed(ListAt(db, RecentKey), ListAt(r, RecentKey), e, RecentCap)
      && Pushed(ListAt(db, HostKey(e.host)), ListAt(r, HostKey(e.host)), e, HostCap)
      && Pushed(ListAt(db, AppKey(e.host, e.application)), ListAt(r, AppKey(e.host, e.application)), e, AppCap)
      && Pushed(ListAt(db, CompKey(e.host, e.application, e.component)),
                ListAt(r, CompKey(e.host, e.application, e.component)), e, CompCap)
  {
    var hk, ak, ck := HostKey(e.host), AppKey(e.host, e.application), CompKey(e.host, e.application, e.component);
    KeyKinds(e.host, e.application, e.component, "");
    var d1 := PushTrimDb(db, RecentKey, e, RecentCap);
    PushTrimSpec(db, RecentKey, e, RecentCap);
    var d2 := PushTrimDb(d1, hk, e, HostCap);
    PushTrimSpec(d1, hk, e, HostCap);
    var d3 := PushTrimDb(d2, ak, e, AppCap);
    PushTrimSpec(d2, ak, e, AppCap);
    PushTrimSpec(d3, ck, e, CompCap);
    assert ListAt(d3, RecentKey) == ListAt(d1, RecentKey);
    assert ListAt(d3, hk) == ListAt(d2, hk);
  }

  /** The daily list of a store gains the entry untrimmed and expires in seven
      days; every other list is as the capped pushes left it. */
  lemma StoreEntrySpec(db: ListDb, e: Entry, day: string)
    ensures var d := CappedPushesDb(db, e); var r := StoreEntryDb(db, e, day);
      && ListAt(r, DailyKey(day)) == [e] + ListAt(db, DailyKey(day))
      && r.ttl == db.ttl[DailyKey(day) := DailyTtl]
      && (forall k :: k != DailyKey(day) ==> ListAt(r, k) == ListAt(d, k))
  {
    CappedPushesFrame(db, e);
    KeyKinds(e.host, e.application, e.component, day);
    assert DailyKey(day) !in CappedKeys(e);
  }

  /** The error-event words of `_analyze_log_entry`, looked for in the
      lower-cased message. */
  const ErrorWords: seq<string> := ["exception", "failed", "error", "critical"]

  /** `level == 'ERROR' or any(word in message.lower() for word in ErrorWords)`. */
  predicate IsErrorEvent(e: Entry) {
    e.level == "ERROR" || ContainsAny(Lower(e.message), ErrorWords)
  }

  /** `_handle_error_event(entry)`: the host and application's error list,
      capped at 50, expiring after a day. */
  function HandleErrorDb(db: ListDb, e: Entry): ListDb {
    var key := ErrorKey(e.host, e.application);
    ExpireDb(PushTrimDb(db, key, e, ErrorCap), key, DayTtl)
  }

  /** `_analyze_auto_scraper_event` and `_analyze_sports_scheduler_event`:
      a message mentioning the list creator goes onto the application's
      list-creator list, capped at 50, expiring after a day. */
  function AppEventDb(db: ListDb, e: Entry): ListDb {
    if MentionsListCreator(e.message) then
      var key := ListCreatorKey(e.application);
      ExpireDb(PushTrimDb(db, key, e, ListCreatorCap), key, DayTtl)
    else db
  }

  /** `_analyze_log_entry(entry)`. */
  function AnalyzeDb(db: ListDb, e: Entry): ListDb {
    var d := if IsErrorEvent(e) then HandleErrorDb(db, e) else db;
    if e.application == "auto-scraper" || e.application == "sports-scheduler" then AppEventDb(d, e)
    else d
  }

  /** One capped push with an expiry: the entry heads the list, the list holds
      at most `cap`, the key expires in `seconds`, and nothing else changes. */
  lemma PushTrimExpireSpec(db: ListDb, key: string, e: Entry, cap: nat, seconds: int)
    requires cap >= 1
    ensures var r := ExpireDb(PushTrimDb(db, key, e, cap), key, seconds);
      && Pushed(ListAt(db, key), ListAt(r, key), e, cap)
      && r.ttl == db.ttl[key := seconds]
      && (forall k :: k != key ==> ListAt(r, k) == ListAt(db, k))
  {
    PushTrimSpec(db, key, e, cap);
  }

  /** An error event heads its host and application's error list (at most 50,
      expiring in a day); any other entry leaves the error lists alone. A
      list-creator mention from either scheduler application heads that
      application's list-creator list (at most 50, expiring in a day). */
  lemma AnalyzeSpec(db: ListDb, e: Entry)
    ensures var r := AnalyzeDb(db, e); var ek := ErrorKey(e.host, e.application);
      && (IsErrorEvent(e) ==> Pushed(ListAt(db, ek), ListAt(r, ek), e, ErrorCap) && r.ttl[ek] == DayTtl)
      && (!IsErrorEvent(e) ==> ListAt(r, ek) == ListAt(db, ek))
      && (var lk := ListCreatorKey(e.application);
          (e.application in {"auto-scraper", "sports-scheduler"} && MentionsListCreator(e.message)) ==>
            Pushed(ListAt(db, lk), ListAt(r, lk), e, ListCreatorCap) && r.ttl[lk] == DayTtl)
      && (forall k :: k != ek && !(k == ListCreatorKey(e.application) && e.application in {"auto-scraper", "sports-scheduler"})
            ==> ListAt(r, k) == ListAt(db, k))
  {
    var ek := ErrorKey(e.host, e.application);
    var lk := ListCreatorKey(e.application);
    var d := if IsErrorEvent(e) then HandleErrorDb(db, e) else db;
    if IsErrorEvent(e) {
      PushTrimExpireSpec(db, ek, e, ErrorCap, DayTtl);
    }
    if e.application == "auto-scraper" || e.application == "sports-scheduler" {
      KeyKinds(e.host, e.application, "", "");
      assert ek != lk;
      if MentionsListCreator(e.message) {
        PushTrimExpireSpec(d, lk, e, ListCreatorCap, DayTtl);
      }
    }
  }

  /** `process_log_line(file_path, line)` with the clock read as `now` (ISO text)
      and `day` (`%Y%m%d`): parse, store, analyse. */
  function ProcessLineDb(db: ListDb, filePath: string, line: string, now: string, day: string): ListDb {
    var e := ParseLogLine(filePath, line, now);
    AnalyzeDb(StoreEntryDb(db, e, day), e)
  }

  /** `get_logs_count_today()`: the length of the day's list. */
  function CountToday(db: ListDb, day: string): nat {
    |ListAt(db, DailyKey(day))|
  }

  /** Every processed line counts once towards its day, since the daily list
      is never trimmed. */
  lemma ProcessLineCountsToday(db: ListDb, filePath: string, line: string, now: string, day: string)
    ensures CountToday(ProcessLineDb(db, filePath, line, now, day), day) == CountToday(db, day) + 1
  {
    var e := ParseLogLine(filePath, line, now);
    StoreEntrySpec(db, e, day);
    CappedPushesFrame(db, e);
    var s := StoreEntryDb(db, e, day);
    AnalyzeSpec(s, e);
    KeyKinds(e.host, e.application, e.component, day);
    assert DailyKey(day) != ErrorKey(e.host, e.application);
    assert e.application in {"auto-scraper", "sports-scheduler"} ==> DailyKey(day) != ListCreatorKey(e.application);
  }

  /** A word found in the lower-cased text is found, upper-cased, in the
      upper-cased text. */
  lemma FoundUpperCased(m: string, w: string, key: string)
    requires Contains(Lower(m), w) && Upper(w) == key
    ensures Contains(Upper(m), key)
  {
    ContainsUpper(Lower(m), w);
    UpperOfLower(m);
  }

  /** An error keyword found in the upper-cased text. */
  lemma ErrorKeyFound(u: string, k: nat, key: string)
    requires k < |ErrorKeys| && ErrorKeys[k] == key && Contains(u, key)
    ensures ContainsAny(u, ErrorKeys)
  {
  }

  /** `FAILED` holds `FAIL`. */
  lemma FailedHoldsFail(u: string)
    requires Contains(u, "FAILED")
    ensures Contains(u, "FAIL")
  {
    var i :| 0 <= i <= |u| - 6 && OccursAt(u, "FAILED", i);
    assert u[i..i + 4] == u[i..i + 6][..4];
    ContainsAt(u, "FAIL", i);
  }

  /** Each error word, upper-cased, holds one of the level classifier's error
      keywords. */
  lemma ErrorWordsAreErrorKeys(m: string)
    requires ContainsAny(Lower(m), ErrorWords)
    ensures ContainsAny(Upper(m), ErrorKeys)
  {
    var j :| 0 <= j < |ErrorWords| && Contains(Lower(m), ErrorWords[j]);
    if j == 1 {
      FailedIsErrorKey(m);
    } else {
      var k := if j == 0 then 2 else if j == 2 then 0 else 3;
      UpperErrorWord(j, k);
      WordIsErrorKey(m, ErrorWords[j], ErrorKeys[k], k);
    }
  }

  /** `exception`, `error` and `critical` upper-case to error keywords. */
  lemma UpperErrorWord(j: nat, k: nat)
    requires j < |ErrorWords| && j != 1
    requires k == if j == 0 then 2 else if j == 2 then 0 else 3
    ensures k < |ErrorKeys| && Upper(ErrorWords[j]) == ErrorKeys[k]
  {
    if j == 0 {
      assert Upper("exception") == "EXCEPTION";
    } else if j == 2 {
      assert Upper("error") == "ERROR";
    } else {
      assert Upper("critical") == "CRITICAL";
    }
  }

  /** An error word that upper-cases to an error keyword. */
  lemma WordIsErrorKey(m: string, w: string, key: string, k: nat)
    requires Contains(Lower(m), w) && Upper(w) == key
    requires k < |ErrorKeys| && ErrorKeys[k] == key
    ensures ContainsAny(Upper(m), ErrorKeys)
  {
    FoundUpperCased(m, w, key);
    ErrorKeyFound(Upper(m), k, key);
  }

  /** `failed` upper-cases to `FAILED`, which holds the keyword `FAIL`. */
  lemma FailedIsErrorKey(m: string)
    requires Contains(Lower(m), ErrorWords[1])
    ensures ContainsAny(Upper(m), ErrorKeys)
  {
    assert Upper("failed") == "FAILED";
    FoundUpperCased(m, "failed", "FAILED");
    FailedHoldsFail(Upper(m));
    ErrorKeyFound(Upper(m), 1, "FAIL");
  }

  /** For an rsyslog line or a line of no known form the level comes from the
      message's keywords, so the error event fires exactly on level `ERROR`;
      an application line names its own level, and an error word in its
      message fires the event whatever that level is. */
  lemma ErrorEventIsErrorLevel(filePath: string, line: string, now: string)
    ensures var e := ParseLogLine(filePath, line, now);
      (AppMatch(line).None? || RsyslogMatch(line).Some? ==> (IsErrorEvent(e) <==> e.level == "ERROR"))
  {
    var e := ParseLogLine(filePath, line, now);
    if (AppMatch(line).None? || RsyslogMatch(line).Some?) && ContainsAny(Lower(e.message), ErrorWords) {
      ErrorWordsAreErrorKeys(e.message);
    }
  }

  // ------------------------------------------------------------------ reads

  /** The list `get_logs` reads: the most specific of component, application,
      host and recent. */
  function LogsKey(host: string, app: string, comp: string): string {
    if host != "all" && app != "all" && comp != "all" then CompKey(host, app, comp)
    else if host != "all" && app != "all" then AppKey(host, app)
    else if host != "all" then HostKey(host)
    else RecentKey
  }

  /** `log.get('level', '').upper() == level.upper()`. */
  predicate LevelIs(e: Entry, level: string) {
    Upper(e.level) == Upper(level)
  }

  /** The level filter of `get_logs` as a test on entries. */
  function LevelTest(level: string): Entry -> bool {
    (e: Entry) => LevelIs(e, level)
  }

  /** `get_logs(host, application, component, level, limit, offset)`: the page
      `LRANGE key offset offset+limit-1`, then the level filter on that page. */
  function GetLogsFrom(db: ListDb, host: string, app: string, comp: string, level: string,
                       limit: int, offset: int): seq<Entry> {
    var page := LRange(ListAt(db, LogsKey(host, app, comp)), offset, offset + limit - 1);
    if level == "all" then page else Filter(page, LevelTest(level))
  }

  /** The page of `n` items from `offset`, clipped to the list. */
  function Window(l: seq<Entry>, offset: nat, n: nat): seq<Entry> {
    var lo := if offset <= |l| then offset else |l|;
    var hi := if offset + n <= |l| then offset + n else |l|;
    l[lo..hi]
  }

  /** With a non-negative offset and a positive limit, `get_logs` answers
      the entries of the `limit`-item page at `offset` (in list order) that
      have the level asked for; the filter comes after the paging, so a page
      can answer fewer than `limit` entries though more of that level lie
      further on. */
  lemma GetLogsWindow(db: ListDb, host: string, app: string, comp: string, level: string,
                      limit: int, offset: int)
    requires offset >= 0 && limit >= 1
    ensures var r := GetLogsFrom(db, host, app, comp, level, limit, offset);
      var w := Window(ListAt(db, LogsKey(host, app, comp)), offset, limit);
      && |r| <= limit
      && (level == "all" ==> r == w)
      && (level != "all" ==> r == Filter(w, LevelTest(level)))
  {
    LRangePage(ListAt(db, LogsKey(host, app, comp)), offset, limit);
  }

  /** `limit=0` at offset 0 asks Redis for `LRANGE key 0 -1`: the whole list. */
  lemma GetLogsZeroLimit(db: ListDb, host: string, app: string, comp: string)
    ensures GetLogsFrom(db, host, app, comp, "all", 0, 0) == ListAt(db, LogsKey(host, app, comp))
  {
    LRangeHead(ListAt(db, LogsKey(host, app, comp)), 0);
  }

  /** What a store writes, each read that names the entry's own host,
      application and component (or leaves them `all`) finds first. */
  lemma StoredEntryReadBack(db: ListDb, e: Entry, day: string, level: string)
    requires e.host != "all" && e.application != "all" && e.component != "all"
    requires level == "all" || LevelIs(e, level)
    ensures var r := StoreEntryDb(db, e, day);
      && GetLogsFrom(r, "all", "all", "all", level, 1, 0) == [e]
      && GetLogsFrom(r, e.host, "all", "all", level, 1, 0) == [e]
      && GetLogsFrom(r, e.host, e.application, "all", level, 1, 0) == [e]
      && GetLogsFrom(r, e.host, e.application, e.component, level, 1, 0) == [e]
  {
    var r := StoreEntryDb(db, e, day);
    CappedPushesSpec(db, e);
    StoreEntrySpec(db, e, day);
    KeyKinds(e.host, e.application, e.component, day);
    ReadHead(r, "all", "all", "all", level, e);
    ReadHead(r, e.host, "all", "all", level, e);
    ReadHead(r, e.host, e.application, "all", level, e);
    ReadHead(r, e.host, e.application, e.component, level, e);
  }

  /** A one-item read at offset 0 answers the head of the list it reads, when
      that head has the level asked for. */
  lemma ReadHead(db: ListDb, host: string, app: string, comp: string, level: string, e: Entry)
    requires ListAt(db, LogsKey(host, app, comp)) != [] && ListAt(db, LogsKey(host, app, comp))[0] == e
    requires level == "all" || LevelIs(e, level)
    ensures GetLogsFrom(db, host, app, comp, level, 1, 0) == [e]
  {
    var l := ListAt(db, LogsKey(host, app, comp));
    LRangeHead(l, 1);
    assert l[..1] == [e];
    if level != "all" {
      assert Filter([e], LevelTest(level)) == [e] + Filter([e][1..], LevelTest(level));
    }
  }

  // ------------------------------------------------------------------ search

  /** The message holds the query, both lower-cased. */
  predicate MentionsQuery(e: Entry, q: string) {
    Contains(Lower(e.message), Lower(q))
  }

  /** The search's test as a function value. */
  function QueryTest(q: string): Entry -> bool {
    (e: Entry) => MentionsQuery(e, q)
  }

  /** How many hits the search keeps: it appends before it compares the count
      with `limit`, so a `limit` below one still keeps the first hit. */
  function SearchCap(limit: int): nat {
    if limit >= 1 then limit else 1
  }

  /** `search_logs(query, host, application, limit)`: the first `SearchCap(limit)`
      entries mentioning the query among the `get_logs` page of `2*limit`. */
  function SearchResults(db: ListDb, query: string, host: string, app: string, limit: int): seq<Entry> {
    var hits := Filter(GetLogsFrom(db, host, app, "all", "all", limit * 2, 0), QueryTest(query));
    var n := SearchCap(limit);
    hits[..if |hits| <= n then |hits| else n]
  }

  /** With a positive limit the search answers at most `limit` entries, each
      mentioning the query case-insensitively and drawn from the first
      `2*limit` entries of the list read; when it answers fewer than `limit`
      it has missed no entry of that page that mentions the query. */
  lemma SearchSpec(db: ListDb, query: string, host: string, app: string, limit: int)
    requires limit >= 1
    ensures var r := SearchResults(db, query, host, app, limit);
      var page := Window(ListAt(db, LogsKey(host, app, "all")), 0, 2 * limit);
      && |r| <= limit
      && (forall i :: 0 <= i < |r| ==> MentionsQuery(r[i], query) && r[i] in page)
      && (|r| < limit ==> forall x :: x in page && MentionsQuery(x, query) ==> x in r)
  {
    var page := GetLogsFrom(db, host, app, "all", "all", limit * 2, 0);
    GetLogsWindow(db, host, app, "all", "all", limit * 2, 0);
    var hits := Filter(page, QueryTest(query));
    var r := SearchResults(db, query, host, app, limit);
    assert forall i :: 0 <= i < |r| ==> r[i] == hits[i];
    if |r| < limit {
      assert r == hits;
      forall x | x in page && MentionsQuery(x, query) ensures x in r {
        var j :| 0 <= j < |page| && page[j] == x;
      }
    }
  }

  /** With `limit=0` the page is the whole list, and the search answers its
      first entry that mentions the query, if any. */
  lemma SearchZeroLimit(db: ListDb, query: string, host: string, app: string)
    ensures var r := SearchResults(db, query, host, app, 0);
      var hits := Filter(ListAt(db, LogsKey(host, app, "all")), QueryTest(query));
      && |r| <= 1 && (hits != [] ==> r == [hits[0]]) && (hits == [] ==> r == [])
  {
    GetLogsZeroLimit(db, host, app, "all");
  }

  // ------------------------------------------------------------------ sources

  /** `host:app` for every application of one mapping, in order. */
  function HostSources(m: Mapping): (r: seq<string>)
    ensures |r| == |m.apps| && forall j :: 0 <= j < |m.apps| ==> r[j] == m.host + ":" + m.apps[j]
  {
    seq(|m.apps|, j requires 0 <= j < |m.apps| => m.host + ":" + m.apps[j])
  }

  /** The sources of the mappings, the mappings in order and each mapping's
      applications in order. */
  function Sources(ms: seq<Mapping>): seq<string>
    decreases |ms|
  {
    if ms == [] then [] else Sources(ms[..|ms| - 1]) + HostSources(ms[|ms| - 1])
  }

  /** A source is listed exactly when it is `host:app` for an application of
      one of the mappings. */
  lemma {:induction false} SourcesSpec(ms: seq<Mapping>)
    ensures forall s :: s in Sources(ms) <==>
      exists k, j :: 0 <= k < |ms| && 0 <= j < |ms[k].apps| && s == ms[k].host + ":" + ms[k].apps[j]
    decreases |ms|
  {
    if ms != [] {
      var init, last := ms[..|ms| - 1], ms[|ms| - 1];
      SourcesSpec(init);
      forall s ensures s in Sources(ms) <==>
        exists k, j :: 0 <= k < |ms| && 0 <= j < |ms[k].apps| && s == ms[k].host + ":" + ms[k].apps[j]
      {
        if s in Sources(init) {
          var k, j :| 0 <= k < |init| && 0 <= j < |init[k].apps| && s == init[k].host + ":" + init[k].apps[j];
          assert ms[k] == init[k];
        } else if s in HostSources(last) {
          var j :| 0 <= j < |last.apps| && HostSources(last)[j] == s;
          assert s == ms[|ms| - 1].host + ":" + ms[|ms| - 1].apps[j];
        }
        if exists k, j :: 0 <= k < |ms| && 0 <= j < |ms[k].apps| && s == ms[k].host + ":" + ms[k].apps[j] {
          var k, j :| 0 <= k < |ms| && 0 <= j < |ms[k].apps| && s == ms[k].host + ":" + ms[k].apps[j];
          if k < |init| {
            assert init[k] == ms[k];
          } else {
            assert HostSources(last)[j] == s;
          }
        }
      }
    }
  }

  /** The first `k` mappings' sources come before the rest's. */
  lemma {:induction false} SourcesAppend(ms: seq<Mapping>, k: nat)
    requires k <= |ms|
    ensures Sources(ms) == Sources(ms[..k]) + Sources(ms[k..])
    decreases |ms|
  {
    if k == |ms| {
      assert ms[..k] == ms && ms[k..] == [];
    } else {
      var init := ms[..|ms| - 1];
      SourcesAppend(init, k);
      assert init[..k] == ms[..k];
      assert ms[k..][..|ms[k..]| - 1] == init[k..];
      assert ms[k..][|ms[k..]| - 1] == ms[|ms| - 1];
    }
  }

  /** The five mappings list sixteen sources. */
  lemma ActiveSourceCount()
    ensures |Sources(PathMappings)| == 16
  {
    var ms := PathMappings;
    assert ms[..5][..4] == ms[..4] && ms[..4][..3] == ms[..3] && ms[..3][..2] == ms[..2];
    assert ms[..2][..1] == ms[..1] && ms[..1][..0] == [];
    assert |Sources(ms[..1])| == 4;
    assert |Sources(ms[..2])| == 7;
    assert |Sources(ms[..3])| == 10;
    assert |Sources(ms[..4])| == 13;
    assert ms[..5] == ms;
  }

  // ------------------------------------------------------------------ the service

  /** The Redis lists as the processor's client sees them. */
  class ListClient {
    var lists: map<string, seq<Entry>>
    var ttl: map<string, int>

    function State(): ListDb
      reads this
    {
      ListDb(lists, ttl)
    }

    constructor()
      ensures State() == ListDb(map[], map[])
    {
      lists, ttl := map[], map[];
    }

    /** `LPUSH key v`. */
    method LPush(key: string, v: Entry)
      modifies this
      ensures State() == LPushDb(old(State()), key, v)
    {
      var l := if key in lists then lists[key] else [];
      lists := lists[key := [v] + l];
    }

    /** `LTRIM key start stop`: a list left empty is deleted with its expiry. */
    method LTrim(key: string, start: int, stop: int)
      modifies this
      ensures State() == LTrimDb(old(State()), key, start, stop)
    {
      if key in lists {
        var t := Store.LTrim(lists[key], start, stop);
        if t == [] {
          lists, ttl := lists - {key}, ttl - {key};
        } else {
          lists := lists[key := t];
        }
      }
    }

    /** `EXPIRE key seconds`. */
    method Expire(key: string, seconds: int)
      modifies this
      ensures State() == ExpireDb(old(State()), key, seconds)
    {
      if key in lists {
        ttl := ttl[key := seconds];
      }
    }

    /** `LRANGE key start stop`. */
    method LRange(key: string, start: int, stop: int) returns (r: seq<Entry>)
      ensures r == Store.LRange(ListAt(State(), key), start, stop)
    {
      var l := if key in lists then lists[key] else [];
      r := Store.LRange(l, start, stop);
    }

    /** `LLEN key`. */
    method LLen(key: string) returns (n: nat)
      ensures n == |ListAt(State(), key)|
    {
      n := if key in lists then |lists[key]| else 0;
    }
  }

  /** `LogProcessor`: the path and pattern tables are the module's constants,
      the clock is read by the caller (`now`, `day`). */
  class LogProcessor {
    const redis: ListClient

    constructor(redis: ListClient)
      ensures this.redis == redis
    {
      this.redis := redis;
    }

    /** `process_log_line(file_path, line)`. */
    method ProcessLogLine(filePath: string, line: string, now: string, day: string)
      modifies redis
      ensures redis.State() == ProcessLineDb(old(redis.State()), filePath, line, now, day)
    {
      var e := ParseLogLine(filePath, line, now);
      StoreLogEntry(e, day);
      AnalyzeLogEntry(e);
    }

    /** `_store_log_entry(entry)`. */
    method StoreLogEntry(e: Entry, day: string)
      modifies redis
      ensures redis.State() == StoreEntryDb(old(redis.State()), e, day)
    {
      redis.LPush(RecentKey, e);
      redis.LTrim(RecentKey, 0, 999);
      redis.LPush(HostKey(e.host), e);
      redis.LTrim(HostKey(e.host), 0, 499);
      redis.LPush(AppKey(e.host, e.application), e);
      redis.LTrim(AppKey(e.host, e.application), 0, 199);
      redis.LPush(CompKey(e.host, e.application, e.component), e);
      redis.LTrim(CompKey(e.host, e.application, e.component), 0, 99);
      redis.LPush(DailyKey(day), e);
      redis.Expire(DailyKey(day), 86400 * 7);
    }

    /** `_analyze_log_entry(entry)`. */
    method AnalyzeLogEntry(e: Entry)
      modifies redis
      ensures redis.State() == AnalyzeDb(old(redis.State()), e)
    {
      if IsErrorEvent(e) {
        HandleErrorEvent(e);
      }
      if e.application == "auto-scraper" || e.application == "sports-scheduler" {
        AnalyzeAppEvent(e);
      }
    }

    /** `_handle_error_event(entry)`. */
    method HandleErrorEvent(e: Entry)
      modifies redis
      ensures redis.State() == HandleErrorDb(old(redis.State()), e)
    {
      var key := ErrorKey(e.host, e.application);
      redis.LPush(key, e);
      redis.LTrim(key, 0, 49);
      redis.Expire(key, 86400);
    }

    /** `_analyze_auto_scraper_event(entry)` and
        `_analyze_sports_scheduler_event(entry)`. */
    method AnalyzeAppEvent(e: Entry)
      modifies redis
      ensures redis.State() == AppEventDb(old(redis.State()), e)
    {
      if Contains(Lower(e.message), "list creator") || Contains(Lower(e.message), "list_creator") {
        var key := ListCreatorKey(e.application);
        redis.LPush(key, e);
        redis.LTrim(key, 0, 49);
        redis.Expire(key, 86400);
      }
    }

    /** `get_logs(host, application, component, level, limit, offset)`. */
    method GetLogs(host: string, app: string, comp: string, level: string, limit: int, offset: int)
      returns (logs: seq<Entry>)
      ensures logs == GetLogsFrom(redis.State(), host, app, comp, level, limit, offset)
    {
      var key := if host != "all" && app != "all" && comp != "all" then CompKey(host, app, comp)
        else if host != "all" && app != "all" then AppKey(host, app)
        else if host != "all" then HostKey(host)
        else RecentKey;
      logs := redis.LRange(key, offset, offset + limit - 1);
      if level != "all" {
        logs := Filter(logs, LevelTest(level));
      }
    }

    /** `search_logs(query, host, application, limit)`: the scan stops once
        the results reach `limit`. */
    method SearchLogs(query: string, host: string, app: string, limit: int) returns (results: seq<Entry>)
      ensures results == SearchResults(redis.State(), query, host, app, limit)
    {
      var logs := GetLogs(host, app, "all", "all", limit * 2, 0);
      ghost var p := QueryTest(query);
      ghost var n := SearchCap(limit);
      results := [];
      var q := Lower(query);
      var i := 0;
      while i < |logs|
        invariant 0 <= i <= |logs|
        invariant results == Filter(logs[..i], p) && |results| < n
      {
        FilterStep(logs, i, p);
        if Contains(Lower(logs[i].message), q) {
          results := results + [logs[i]];
          if |results| >= limit {
            i := i + 1;
            break;
          }
        }
        i := i + 1;
      }
      FirstHits(logs, i, p, n);
    }

    /** `get_active_sources()`. */
    method GetActiveSources() returns (sources: seq<string>)
      ensures sources == Sources(PathMappings)
    {
      sources := [];
      var k := 0;
      while k < |PathMappings|
        invariant 0 <= k <= |PathMappings|
        invariant sources == Sources(PathMappings[..k])
      {
        var m := PathMappings[k];
        var j := 0;
        while j < |m.apps|
          invariant 0 <= j <= |m.apps|
          invariant sources == Sources(PathMappings[..k]) + HostSources(m)[..j]
        {
          sources := sources + [m.host + ":" + m.apps[j]];
          assert HostSources(m)[..j + 1] == HostSources(m)[..j] + [m.host + ":" + m.apps[j]];
          j := j + 1;
        }
        assert PathMappings[..k + 1][..k] == PathMappings[..k];
        assert HostSources(m)[..j] == HostSources(m);
        k := k + 1;
      }
      assert PathMappings[..k] == PathMappings;
    }

    /** `get_logs_count_today()`. */
    method GetLogsCountToday(day: string) returns (n: nat)
      ensures n == CountToday(redis.State(), day)
    {
      n := redis.LLen(DailyKey(day));
    }
  }

  /** One more item of the scan: filtering the longer prefix adds that item
      exactly when it passes. */
  lemma FilterStep(xs: seq<Entry>, i: nat, p: Entry -> bool)
    requires i < |xs|
    ensures Filter(xs[..i + 1], p) == Filter(xs[..i], p) + (if p(xs[i]) then [xs[i]] else [])
  {
    assert xs[..i + 1] == xs[..i] + [xs[i]];
    FilterAppend(xs[..i], [xs[i]], p);
    assert Filter([xs[i]], p) == (if p(xs[i]) then [xs[i]] else []) by {
      assert [xs[i]][1..] == [];
    }
  }

  /** A scan that stopped at `i`, either at the end or holding `n` hits,
      holds the first `n` hits (or all, when there are fewer). */
  lemma FirstHits(xs: seq<Entry>, i: nat, p: Entry -> bool, n: nat)
    requires i <= |xs| && |Filter(xs[..i], p)| <= n
    requires i == |xs| || |Filter(xs[..i], p)| == n
    ensures var hits := Filter(xs, p); Filter(xs[..i], p) == hits[..if |hits| <= n then |hits| else n]
  {
    assert xs == xs[..i] + xs[i..];
    FilterAppend(xs[..i], xs[i..], p);
    if i == |xs| {
      assert xs[i..] == [];
    }
  }
}
