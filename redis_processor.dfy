/** The Redis log processor service: the Redis client it writes through, the
    bounded task queue the file watcher fills, and the worker step that turns a
    queued file into sorted-set entries and a metadata hash. */
module RedisProcessor {
  import opened Wrappers
  import opened Text
  import opened PySeq
  import opened Paths
  import opened Store
  import opened Time
  import opened Timestamps
  import opened RedisIngest
  import opened LineTags

  /** The Redis server as the client sees it: sorted sets, hashes of text,
      hashes of counters and key expiries (in seconds). */
  class RedisClient {
    var zsets: Sets<Member>
    var hashes: map<string, map<string, string>>
    var counters: map<string, map<string, int>>
    var ttl: map<string, int>

    function State(): Db
      reads this
    {
      Db(zsets, hashes, counters, ttl)
    }

    predicate Exists(key: string)
      reads this
    {
      key in zsets || key in hashes || key in counters
    }

    constructor()
      ensures State() == Db(map[], map[], map[], map[])
    {
      zsets, hashes, counters, ttl := map[], map[], map[], map[];
    }

    /** `ZADD key score member`. */
    method ZAdd(key: string, m: Member, score: int)
      modifies this
      ensures zsets == old(zsets)[key := Store.ZAdd(SetAt(old(zsets), key), m, score)]
      ensures hashes == old(hashes) && counters == old(counters) && ttl == old(ttl)
    {
      zsets := zsets[key := Store.ZAdd(SetAt(zsets, key), m, score)];
    }

    /** `EXPIRE key seconds`: a key that does not exist is left alone. */
    method Expire(key: string, seconds: int)
      modifies this
      ensures ttl == if old(Exists(key)) then old(ttl)[key := seconds] else old(ttl)
      ensures zsets == old(zsets) && hashes == old(hashes) && counters == old(counters)
    {
      if Exists(key) {
        ttl := ttl[key := seconds];
      }
    }

    /** `ZREMRANGEBYRANK key start stop`: a set left empty is deleted, and its
        expiry with it. */
    method ZRemRangeByRank(key: string, start: int, stop: int)
      modifies this
      ensures key !in old(zsets) ==> zsets == old(zsets) && ttl == old(ttl)
      ensures key in old(zsets) ==>
        var z := Store.ZRemRangeByRank(old(zsets)[key], start, stop);
        && (z != [] ==> zsets == old(zsets)[key := z] && ttl == old(ttl))
        && (z == [] ==> zsets == old(zsets) - {key} && ttl == old(ttl) - {key})
      ensures hashes == old(hashes) && counters == old(counters)
    {
      if key in zsets {
        var z := Store.ZRemRangeByRank(zsets[key], start, stop);
        if z == [] {
          zsets := zsets - {key};
          ttl := ttl - {key};
        } else {
          zsets := zsets[key := z];
        }
      }
    }

    /** `HINCRBY key field delta`. */
    method HIncrBy(key: string, field: string, delta: int)
      modifies this
      ensures counters == old(counters)[key := Store.HIncrBy(if key in old(counters) then old(counters)[key] else map[], field, delta)]
      ensures zsets == old(zsets) && hashes == old(hashes) && ttl == old(ttl)
    {
      var h := if key in counters then counters[key] else map[];
      counters := counters[key := Store.HIncrBy(h, field, delta)];
    }

    /** `HSET key mapping=fields`: the fields are merged into the hash. */
    method HSet(key: string, fields: map<string, string>)
      modifies this
      ensures hashes == old(hashes)[key := (if key in old(hashes) then old(hashes)[key] else map[]) + fields]
      ensures zsets == old(zsets) && counters == old(counters) && ttl == old(ttl)
    {
      var h := if key in hashes then hashes[key] else map[];
      hashes := hashes[key := h + fields];
    }

    /** `HGETALL key` on a statistics hash. */
    function HGetAllCounters(key: string): (h: map<string, int>)
      reads this
      ensures key in counters ==> h == counters[key]
      ensures key !in counters ==> h == map[]
    {
      if key in counters then counters[key] else map[]
    }

    /** `HGETALL key`. */
    function HGetAll(key: string): (h: map<string, string>)
      reads this
      ensures key in hashes ==> h == hashes[key]
      ensures key !in hashes ==> h == map[]
    {
      if key in hashes then hashes[key] else map[]
    }
  }

  /** A queued job: a file to process, or the signal that stops a worker. */
  datatype Task = FileTask(filePath: string, host: string, eventType: string) | Shutdown

  class RedisLogProcessor {
    const redis: RedisClient
    const settings: Settings
    var queue: seq<Task>
    var running: bool

    /** The queue never holds more than its capacity, and every sorted set is
        ranked with one entry per member. */
    predicate Valid()
      reads this, redis
    {
      |queue| <= QueueCapacity && AllValid(redis.zsets)
    }

    constructor(s: Settings)
      ensures fresh(redis) && settings == s
      ensures redis.State() == Db(map[], map[], map[], map[])
      ensures queue == [] && running
      ensures Valid()
    {
      redis := new RedisClient();
      settings := s;
      queue := [];
      running := true;
    }

    /** The `zadd`/`expire`/`zremrangebyrank` group for one key. */
    method Group(p: Put, m: Member, score: int)
      requires p.cap.Some? ==> p.cap.value >= 1
      modifies redis
      ensures redis.zsets == PutOne(old(redis.zsets), p, m, score)
      ensures redis.ttl == old(redis.ttl)[p.key := settings.logTtl]
      ensures redis.hashes == old(redis.hashes) && redis.counters == old(redis.counters)
    {
      ghost var before := redis.zsets;
      AddAndExpire(p.key, m, score);
      if p.cap.Some? {
        Trim(p.key, p.cap.value);
      }
      PutOneSteps(before, p, m, score);
    }

    /** `zadd` and then `expire`: the key exists after the `zadd`, so the expiry is set. */
    method AddAndExpire(key: string, m: Member, score: int)
      modifies redis
      ensures redis.zsets == old(redis.zsets)[key := Store.ZAdd(SetAt(old(redis.zsets), key), m, score)]
      ensures |redis.zsets[key]| >= 1
      ensures redis.ttl == old(redis.ttl)[key := settings.logTtl]
      ensures redis.hashes == old(redis.hashes) && redis.counters == old(redis.counters)
    {
      redis.ZAdd(key, m, score);
      assert ZEntry(m, score) in redis.zsets[key];
      redis.Expire(key, settings.logTtl);
    }

    /** `zremrangebyrank(key, 0, -(cap + 1))` on a set that holds an entry. */
    method Trim(key: string, cap: nat)
      requires cap >= 1
      requires key in redis.zsets
      requires |redis.zsets[key]| >= 1
      modifies redis
      ensures redis.zsets == old(redis.zsets)[key := KeepTop(old(redis.zsets)[key], cap)]
      ensures redis.ttl == old(redis.ttl) && redis.hashes == old(redis.hashes) && redis.counters == old(redis.counters)
    {
      ghost var kept := KeepTop(redis.zsets[key], cap);
      assert kept != [];
      redis.ZRemRangeByRank(key, 0, -(cap + 1));
    }

    /** `_store_log_entry`: the groups of `FanOut` in order, then the two
        statistics counters and their expiry. */
    method StoreLogEntry(entry: LogRecord, host: string, app: string, component: string)
      modifies redis
      ensures redis.State() == StoreEntry(old(redis.State()), settings, host, app, component, entry)
    {
      var m, score := Doc(CleanEntry(entry)), Score(entry);
      var index := IndexKey(host, app, component);
      ghost var db0 := redis.State();
      StoreEntryInParts(db0, settings, host, app, component, entry);
      if Structured(component, entry) {
        StructuredGroups(index, component, entry, m, score);
      } else {
        assert StructuredPuts(index, component, entry) == [];
      }
      assert redis.zsets == ApplyPuts(db0.zsets, StructuredPuts(index, component, entry), m, score);
      assert redis.ttl == ExpireAll(db0.ttl, StructuredPuts(index, component, entry), settings.logTtl);
      CommonGroups(index, entry, m, score);
      LegacyGroups(index, entry, m, score);
      var stats := StatsKey(host, app);
      CountEntry(stats, entry.level);
      redis.Expire(stats, settings.logTtl);
    }

    /** The two `hincrby` calls on the statistics hash. */
    method CountEntry(stats: string, level: string)
      modifies redis
      ensures redis.counters == BumpStats(old(redis.counters), stats, level)
      ensures stats in redis.counters
      ensures redis.zsets == old(redis.zsets) && redis.hashes == old(redis.hashes) && redis.ttl == old(redis.ttl)
    {
      ghost var c0 := redis.counters;
      ghost var h := if stats in c0 then c0[stats] else map[];
      ghost var h1 := Store.HIncrBy(h, "total_logs", 1);
      redis.HIncrBy(stats, "total_logs", 1);
      ghost var mid := redis.counters;
      assert mid == c0[stats := h1];
      redis.HIncrBy(stats, "level_" + level, 1);
      assert redis.counters == mid[stats := Store.HIncrBy(h1, "level_" + level, 1)];
    }

    /** The step, refresh-wide and step-level groups of a structured entry. */
    method StructuredGroups(index: string, component: string, entry: LogRecord, m: Member, score: int)
      requires Structured(component, entry)
      modifies redis
      ensures redis.zsets == ApplyPuts(old(redis.zsets), StructuredPuts(index, component, entry), m, score)
      ensures redis.ttl == ExpireAll(old(redis.ttl), StructuredPuts(index, component, entry), settings.logTtl)
      ensures redis.hashes == old(redis.hashes) && redis.counters == old(redis.counters)
    {
      var stepKey := index + ":" + entry.refreshId.value + ":" + entry.stepName.value;
      var ps := [Put(stepKey, Some(StepCap)),
                 Put(index + ":" + entry.refreshId.value + ":all", Some(RefreshCap)),
                 Put(stepKey + ":level:" + entry.level, Some(StepLevelCap))];
      ghost var z0, t0 := redis.zsets, redis.ttl;
      Group(ps[0], m, score);
      Group(ps[1], m, score);
      Group(ps[2], m, score);
      ApplyPutsTriple(z0, ps[0], ps[1], ps[2], m, score);
      ExpireAllShort(t0, ps[0], ps[1], ps[2], settings.logTtl);
    }

    /** The primary and level groups. */
    method CommonGroups(index: string, entry: LogRecord, m: Member, score: int)
      modifies redis
      ensures redis.zsets == ApplyPuts(old(redis.zsets), CommonPuts(index, entry), m, score)
      ensures redis.ttl == ExpireAll(old(redis.ttl), CommonPuts(index, entry), settings.logTtl)
      ensures redis.hashes == old(redis.hashes) && redis.counters == old(redis.counters)
    {
      var ps := CommonPuts(index, entry);
      ghost var z0, t0 := redis.zsets, redis.ttl;
      Group(ps[0], m, score);
      Group(ps[1], m, score);
      ApplyPutsPair(z0, ps[0], ps[1], m, score);
      ExpireAllShort(t0, ps[0], ps[1], ps[1], settings.logTtl);
    }

    /** The uncapped legacy refresh and step groups, each when its value is
        non-empty. */
    method LegacyGroups(index: string, entry: LogRecord, m: Member, score: int)
      modifies redis
      ensures redis.zsets == ApplyPuts(old(redis.zsets), LegacyPuts(index, entry), m, score)
      ensures redis.ttl == ExpireAll(old(redis.ttl), LegacyPuts(index, entry), settings.logTtl)
      ensures redis.hashes == old(redis.hashes) && redis.counters == old(redis.counters)
    {
      ghost var ps := LegacyPuts(index, entry);
      ghost var z0, t0 := redis.zsets, redis.ttl;
      var refresh := Put(index + ":refresh:" + (if Truthy(entry.refreshId) then entry.refreshId.value else ""), None);
      var step := Put(index + ":step:" + (if Truthy(entry.step) then entry.step.value else ""), None);
      if Truthy(entry.refreshId) {
        Group(refresh, m, score);
      }
      if Truthy(entry.step) {
        Group(step, m, score);
      }
      if Truthy(entry.refreshId) && Truthy(entry.step) {
        assert ps == [refresh, step];
        ApplyPutsPair(z0, refresh, step, m, score);
        ExpireAllShort(t0, refresh, step, step, settings.logTtl);
      } else if Truthy(entry.refreshId) {
        assert ps == [refresh];
        ApplyPutsSingle(z0, refresh, m, score);
        ExpireAllShort(t0, refresh, step, step, settings.logTtl);
      } else if Truthy(entry.step) {
        assert ps == [step];
        ApplyPutsSingle(z0, step, m, score);
        ExpireAllShort(t0, step, step, step, settings.logTtl);
      } else {
        assert ps == [];
      }
    }

    /** `_parse_log_line`, whose `for pattern in timestamp_patterns` loop
        takes the first pattern that both matches and parses. */
    method ParseLogLine(clock: Clock, line: string, path: Path, lineNum: nat) returns (entry: LogRecord)
      ensures entry == RedisIngest.ParseLogLine(clock, line, path, lineNum)
    {
      var shapes := [IsoWithOffset, IsoLocal, Standard];
      var interp := t => RedisInterpret(clock, t);
      var found: Option<Instant> := None;
      var k := 0;
      while k < |shapes| && found.None?
        invariant 0 <= k <= |shapes|
        invariant found.None? ==> FirstParsed(line, shapes, interp) == FirstParsed(line, shapes[k..], interp)
        invariant found.Some? ==> found == FirstParsed(line, shapes, interp)
      {
        assert shapes[k..][1..] == shapes[k + 1..];
        found := Attempt(line, shapes[k], interp);
        k := k + 1;
      }
      var timestamp := found.GetOr(clock.now);
      var (refreshFromPath, stepName) := RefreshAndStep(path);
      var refreshId := if Truthy(refreshFromPath) then refreshFromPath else RefreshTag(line);
      var step := if Truthy(stepName) then None else StepNumber(line);
      entry := LogRecord(timestamp, LevelOf(line), Strip(line), Str(path), lineNum, refreshId, step, stepName, clock.now);
    }

    /** `_parse_and_store_file`: a file over the size limit stores nothing;
        otherwise the last `max_lines_per_file` lines are parsed newest first,
        skipping blank ones, and the stored entries are counted. */
    method ParseAndStoreFile(path: Path, info: FileInfo, host: string, clock: Clock) returns (count: nat)
      modifies redis
      ensures (redis.State(), count) == StoreFile(old(redis.State()), settings, path, host, info, clock)
    {
      if info.size > settings.maxFileSize {
        return 0;
      }
      var app := AppName(path);
      var component := ComponentName(path);
      var lines := info.lines;
      if |lines| > settings.maxLinesPerFile {
        lines := PyDrop(lines, -settings.maxLinesPerFile);
      }
      assert lines == KeptLines(settings, info.lines);
      count := StoreReversed(Reverse(lines), path, host, app, component, clock);
    }

    /** The `for i, line in enumerate(reversed(lines))` loop of
        `_parse_and_store_file`. */
    method StoreReversed(rev: seq<string>, path: Path, host: string, app: string, component: string, clock: Clock)
      returns (count: nat)
      requires app == AppName(path) && component == ComponentName(path)
      modifies redis
      ensures redis.State() == StoreLines(old(redis.State()), settings, path, host, clock, rev).0
      ensures count == StoreLines(old(redis.State()), settings, path, host, clock, rev).1
    {
      ghost var db0 := redis.State();
      count := 0;
      for i := 0 to |rev|
        invariant redis.State() == StoreLines(db0, settings, path, host, clock, rev[..i]).0
        invariant count == StoreLines(db0, settings, path, host, clock, rev[..i]).1
      {
        count := StoreNextLine(rev, i, path, host, app, component, clock, db0, count);
      }
      assert rev[..|rev|] == rev;
    }

    /** The loop over the lines, one line further. */
    method StoreNextLine(rev: seq<string>, i: nat, path: Path, host: string, app: string, component: string, clock: Clock,
                         ghost db0: Db, count: nat) returns (count': nat)
      requires i < |rev|
      requires app == AppName(path) && component == ComponentName(path)
      requires redis.State() == StoreLines(db0, settings, path, host, clock, rev[..i]).0
      requires count == StoreLines(db0, settings, path, host, clock, rev[..i]).1
      modifies redis
      ensures redis.State() == StoreLines(db0, settings, path, host, clock, rev[..i + 1]).0
      ensures count' == StoreLines(db0, settings, path, host, clock, rev[..i + 1]).1
    {
      ghost var before := redis.State();
      count' := StoreOneLine(rev[i], i, path, host, app, component, clock, count);
      StoreLinesNext(db0, settings, path, host, clock, rev, i, before, redis.State(), count, count');
    }

    /** One pass of the loop of `_parse_and_store_file`: a non-blank line is
        parsed, stored and counted, a blank one skipped. */
    method StoreOneLine(line: string, i: nat, path: Path, host: string, app: string, component: string, clock: Clock,
                        count: nat) returns (count': nat)
      requires app == AppName(path) && component == ComponentName(path)
      modifies redis
      ensures Strip(line) == "" ==> redis.State() == old(redis.State()) && count' == count
      ensures Strip(line) != "" ==>
        redis.State() == StoreLine(old(redis.State()), settings, path, host, clock, line, i) && count' == count + 1
    {
      count' := count;
      if Strip(line) != "" {
        var entry := ParseLogLine(clock, line, path, i);
        StoreLogEntry(entry, host, app, component);
        count' := count + 1;
      }
    }

    /** `_process_file_task`: a file whose metadata says it was processed no
        earlier than its last modification is skipped; otherwise it is parsed
        and stored, and its metadata hash is written and given the log expiry. */
    method ProcessFileTask(filePath: string, host: string, fs: map<string, FileInfo>, clock: Clock, workerId: nat)
      modifies redis
      ensures redis.State() == ProcessTask(old(redis.State()), settings, filePath, host, fs, clock, workerId)
    {
      var path := ParsePath(filePath);
      if Str(path) !in fs {
        return;
      }
      var info := fs[Str(path)];
      var metaKey := MetaKey(host, FileHash(path, info));
      var cached := redis.HGetAll(metaKey);
      assert cached == MetaOf(redis.State(), metaKey);
      if "processed_at" in cached && cached["processed_at"] != "" {
        var lastProcessed := clock.parse(FromIso, cached["processed_at"]);
        if lastProcessed.None? {
          return;
        }
        if info.mtime.micros <= lastProcessed.value.micros {
          return;
        }
      }
      ghost var db0 := redis.State();
      var count := ParseAndStoreFile(path, info, host, clock);
      StoreFileBounds(db0, settings, path, host, info, clock);
      assert redis.hashes == db0.hashes;
      redis.HSet(metaKey, MetaFields(path, info, clock, count, workerId));
      redis.Expire(metaKey, settings.logTtl);
    }

    /** One turn of `_worker_loop`: an empty queue is waited on, the stop
        signal ends the worker, and a file task is processed. */
    method WorkerStep(fs: map<string, FileInfo>, clock: Clock, workerId: nat) returns (stop: bool)
      requires Valid()
      modifies this, redis
      ensures Valid()
      ensures old(queue) == [] ==> !stop && queue == [] && redis.State() == old(redis.State())
      ensures old(queue) != [] ==> queue == old(queue)[1..]
      ensures old(queue) != [] && old(queue)[0].Shutdown? ==> stop && redis.State() == old(redis.State())
      ensures old(queue) != [] && old(queue)[0].FileTask? ==>
        var t := old(queue)[0];
        !stop && redis.State() == ProcessTask(old(redis.State()), settings, t.filePath, t.host, fs, clock, workerId)
      ensures running == old(running)
    {
      if queue == [] {
        return false;
      }
      var task := queue[0];
      queue := queue[1..];
      if task.Shutdown? {
        return true;
      }
      ProcessFileTask(task.filePath, task.host, fs, clock, workerId);
      ProcessTaskKeepsSetsValid(old(redis.State()), settings, task.filePath, task.host, fs, clock, workerId);
      return false;
    }
  }

  /** The file watcher: every modified `.log` file is queued under the host
      its path names, unless the queue is full. */
  class LogFileWatcher {
    const processor: RedisLogProcessor

    constructor(p: RedisLogProcessor)
      ensures processor == p
    {
      processor := p;
    }

    /** `on_modified`: the host is the first known host among the path's parts. */
    method OnModified(isDirectory: bool, srcPath: string)
      requires processor.Valid()
      modifies processor
      ensures processor.Valid()
      ensures var accepted := !isDirectory && EndsWith(srcPath, ".log");
        var task := FileTask(srcPath, HostOf(Parts(ParsePath(srcPath))), "modified");
        processor.queue == if accepted && |old(processor.queue)| < QueueCapacity
                           then old(processor.queue) + [task] else old(processor.queue)
      ensures processor.running == old(processor.running)
    {
      if isDirectory || !EndsWith(srcPath, ".log") {
        return;
      }
      var host := FindHost(Parts(ParsePath(srcPath)));
      if |processor.queue| < QueueCapacity {
        processor.queue := processor.queue + [FileTask(srcPath, host, "modified")];
      }
    }
  }

  /** The `for part in path_parts` loop of `on_modified`. */
  method FindHost(parts: seq<string>) returns (host: string)
    ensures host == HostOf(parts)
  {
    host := "unknown";
    var i := 0;
    while i < |parts|
      invariant 0 <= i <= |parts|
      invariant host == "unknown" ==> HostOf(parts) == HostOf(parts[i..])
      invariant host != "unknown" ==> host == HostOf(parts)
    {
      assert parts[i..] == [parts[i]] + parts[i + 1..];
      if parts[i] in KnownHosts {
        host := parts[i];
        break;
      }
      i := i + 1;
    }
    if host == "unknown" {
      assert parts[i..] == [];
    }
  }

  /** Processing a file keeps every sorted set well formed. */
  lemma ProcessTaskKeepsSetsValid(db: Db, s: Settings, filePath: string, host: string, fs: map<string, FileInfo>,
                                  clock: Clock, workerId: nat)
    requires AllValid(db.zsets)
    ensures AllValid(ProcessTask(db, s, filePath, host, fs, clock, workerId).zsets)
  {
    var path := ParsePath(filePath);
    if Str(path) in fs {
      StoreFileValid(db, s, path, host, fs[Str(path)], clock);
    }
  }

  /** Storing a file keeps every sorted set well formed. */
  lemma StoreFileValid(db: Db, s: Settings, path: Path, host: string, info: FileInfo, clock: Clock)
    requires AllValid(db.zsets)
    ensures AllValid(StoreFile(db, s, path, host, info, clock).0.zsets)
  {
    if info.size <= s.maxFileSize {
      StoreLinesValid(db, s, path, host, clock, Reverse(KeptLines(s, info.lines)));
    }
  }

  /** The loop of `_parse_and_store_file` after one more line. */
  lemma StoreLinesStep(db: Db, s: Settings, path: Path, host: string, clock: Clock, rev: seq<string>, i: nat)
    requires i < |rev|
    ensures Strip(rev[i]) == "" ==> StoreLines(db, s, path, host, clock, rev[..i + 1]).0 == StoreLines(db, s, path, host, clock, rev[..i]).0
    ensures Strip(rev[i]) == "" ==> StoreLines(db, s, path, host, clock, rev[..i + 1]).1 == StoreLines(db, s, path, host, clock, rev[..i]).1
    ensures Strip(rev[i]) != "" ==>
      (StoreLines(db, s, path, host, clock, rev[..i + 1]).0 == StoreLine(StoreLines(db, s, path, host, clock, rev[..i]).0, s, path, host, clock, rev[i], i))
    ensures Strip(rev[i]) != "" ==> StoreLines(db, s, path, host, clock, rev[..i + 1]).1 == StoreLines(db, s, path, host, clock, rev[..i]).1 + 1
  {
    assert rev[..i + 1][..i] == rev[..i];
  }

  /** One pass of the loop, as `StoreOneLine` states it, takes the loop's
      state from `rev[..i]` to `rev[..i + 1]`. */
  lemma StoreLinesNext(db: Db, s: Settings, path: Path, host: string, clock: Clock, rev: seq<string>, i: nat,
                       before: Db, after: Db, count: nat, count': nat)
    requires i < |rev|
    requires before == StoreLines(db, s, path, host, clock, rev[..i]).0
    requires count == StoreLines(db, s, path, host, clock, rev[..i]).1
    requires Strip(rev[i]) == "" ==> after == before && count' == count
    requires Strip(rev[i]) != "" ==> after == StoreLine(before, s, path, host, clock, rev[i], i) && count' == count + 1
    ensures after == StoreLines(db, s, path, host, clock, rev[..i + 1]).0
    ensures count' == StoreLines(db, s, path, host, clock, rev[..i + 1]).1
  {
    StoreLinesStep(db, s, path, host, clock, rev, i);
  }

  /** A group is the `zadd` followed, when capped, by the trim. */
  lemma PutOneSteps(sets: Sets<Member>, p: Put, m: Member, score: int)
    ensures var added := sets[p.key := Store.ZAdd(SetAt(sets, p.key), m, score)];
      PutOne(sets, p, m, score) == if p.cap.Some? then added[p.key := KeepTop(added[p.key], p.cap.value)] else added
  {
  }

  /** Storing lines keeps every sorted set well formed. */
  lemma {:induction false} StoreLinesValid(db: Db, s: Settings, path: Path, host: string, clock: Clock, rev: seq<string>)
    requires AllValid(db.zsets)
    ensures AllValid(StoreLines(db, s, path, host, clock, rev).0.zsets)
    decreases |rev|
  {
    if rev != [] {
      var i := |rev| - 1;
      StoreLinesValid(db, s, path, host, clock, rev[..i]);
      var before := StoreLines(db, s, path, host, clock, rev[..i]);
      StoreKeepsSetsValid(before.0, s, host, AppName(path), ComponentName(path), RedisIngest.ParseLogLine(clock, rev[i], path, i));
    }
  }
}
