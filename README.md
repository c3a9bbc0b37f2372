# A verified model of the centralized log service

The system collects log files from several hosts (`ssdev`, `ssdvr`, `ssmcp`,
`ssrun`) into one directory tree and makes them searchable. A Redis-backed
processor watches the tree, classifies every line by path and content, and
fans each record out into capped, expiring sorted sets. A query API reads them
back with filters, pagination and a result cache. Around that core sit an
older list-based processor, a brute-force file reader (`log_api.py`), a
producer of structured workflow messages for the sports scheduler and a router
that writes them into per-step files, a file-offset monitor, a periodic task
scheduler, a capped metrics history, the health and error endpoints of the log
server, the dashboard's workflow views, a stand-alone test API and a memory
watchdog.

This project models that core in Dafny and proves what each part promises.

- **Values become datatypes and functions.** Classification, parsing, key
  construction, message building and the query filters are written this way.
- **Objects that change fields become classes.** The Redis processor and
  client, the list processor, the file monitor, the scheduler, the metrics
  store and the memory monitor are classes with `modifies` clauses. Each of
  their methods is proved against a function that specifies it.
- **Redis is a value.** The `Store` module models the commands the code uses:
  sorted sets with `ZADD`, `ZREMRANGEBYRANK` and `ZREVRANGEBYSCORE`, lists
  with `LPUSH`, `LTRIM` and `LRANGE`, hash counters and `*` glob patterns.
  Redis index normalisation is modelled exactly.
- **Clocks, directory walks and file contents are parameters.**

Python semantics are written out where they matter:

- slicing with negative bounds (`PySeq`);
- `str.strip` and `lower` (`Text`);
- the insertion order of dicts and the stability of `sorted` (`Tally`, `Sorting`);
- the regexes, as explicit matchers with the same outcome (`Regex`, `LineTags`, `Timestamps`).

Two behaviours of the code defeat its own evident purpose; the model follows the code.

- **`get_logs` in `server/redis_log_api.py`.** Every base key ends in `*`, so
  the wildcard branch is the only one reachable. The level, refresh and step
  filters change only the cache key. The code's own comment "Fixed: Add
  wildcard for component filtering" (server/redis_log_api.py:48) added that
  `*`, and the filter chain at lines 55-61 then appends its suffix after it.
- **An ISO `time` without an offset in `log_api.py`.** It yields naive bounds,
  and comparing them with the line timestamps raises on every line: the code
  makes every line timestamp aware (log_api.py:402-408) and builds every other
  window from `datetime.now(pacific_tz)` (log_api.py:320), so aware bounds are
  evidently meant, yet the ISO branch (log_api.py:326) keeps an offset-free text
  naive, and the comparison at log_api.py:483 raises. Each
  file is then abandoned and the route returns nothing. The model returns
  nothing too (`LogApi.NaiveTimeGivesNothing`).

## Model

| member | source | states |
|---|---|---|
| RedisIngest.AppName | server/log_processor_redis.py:173-182 | `sports-scheduler` iff that is a path segment; `auto-scraper` iff a segment and `sports-scheduler` is not; `system` iff neither and `system` occurs anywhere in the path text; `unknown` otherwise (all four directions) |
| RedisIngest.ComponentName | server/log_processor_redis.py:184-204 | an `iptv-orchestrator` segment gives that component; otherwise the first of iptv-orchestrator, epg-processor, automated-recording, application, api contained in the file name, else `general` |
| RedisIngest.RefreshAndStep | server/log_processor_redis.py:206-223 | refresh id and step name are both present or both absent, and present exactly when an `iptv-orchestrator` segment has two more segments after its first occurrence |
| RedisIngest.HostOf | server/log_processor_redis.py:370-375 | the host is one of ssdev, ssdvr, ssmcp, ssrun or `unknown`; `unknown` iff no segment is a known host; otherwise it is the first segment that is one |
| RedisIngest.LevelAlternative | server/log_processor_redis.py:255 | the alternation tried in order at one position only yields a listed level name |
| RedisIngest.LevelOf | server/log_processor_redis.py:255-256 | the level is always one of DEBUG, INFO, WARNING, WARN, ERROR, CRITICAL, FATAL |
| RedisIngest.LevelOfLeadingWord | server/log_processor_redis.py:255-256 | a line opening with a level name in any case, then a non-word character, gets exactly that name upper-cased (WARN and FATAL not normalised) |
| RedisIngest.EarlierLevelFails | server/log_processor_redis.py:255 | no alternative listed before the leading word matches there as a whole word, so alternation order cannot pick another level |
| RedisIngest.AlternativesSkipped | server/log_processor_redis.py:255 | alternatives that fail at a position are passed over and the first whole-word match decides |
| RedisIngest.ParseLogLine | server/log_processor_redis.py:225-282 | the entry's level is a listed level, its message is the stripped line, its step name is the path's; a path refresh id wins, else the id is the digits of a `[Refresh-n]` tag the line contains; a step number is read only without a step name and is all digits |
| RedisIngest.CleanEntry | server/log_processor_redis.py:286-290 | the stored document has exactly the non-None fields, each as text (line number as its decimal numeral, which parses back) |
| RedisIngest.StructuredPuts | server/log_processor_redis.py:297-327 | an orchestrator entry with refresh id and step name writes the step set (cap 1000), the refresh-wide `:all` set (cap 5000) and the step-level set (cap 500), in that order; any other entry writes none |
| RedisIngest.LegacyPuts | server/log_processor_redis.py:341-351 | one uncapped `:refresh:<id>` set when the id is truthy and one uncapped `:step:<n>` set when the step is, refresh first |
| RedisIngest.ExpireAll | server/log_processor_redis.py:312-351 | every key a group writes gets an expiry, and no other key is added |
| RedisIngest.StoreEntryInParts | server/log_processor_redis.py:284-357 | one stored entry is the structured, common and legacy groups applied in source order, then the statistics counters and their expiry |
| RedisIngest.CommonCapsHold | server/log_processor_redis.py:330-339 | after a store the primary set holds at most 10000 members and its level set at most 1000 |
| RedisIngest.IndexCapHolds | server/log_processor_redis.py:330-333 | after a store the primary set holds at most 10000 members |
| RedisIngest.LevelCapHolds | server/log_processor_redis.py:335-339 | after a store the level set holds at most 1000 members |
| RedisIngest.StructuredCapsHold | server/log_processor_redis.py:315-327 | after a structured store the refresh-wide set holds at most 5000 members and the step-level set at most 500 |
| RedisIngest.StepCapHolds | server/log_processor_redis.py:306-313 | after a structured store the step set holds at most 1000 members when its key is not also the refresh-wide key or the legacy refresh key |
| RedisIngest.StepCapOverflows | server/log_processor_redis.py:306-345 | when the step key is the legacy refresh key, a full step set whose entries all outrank the new one ends with 1001 members |
| RedisIngest.RefreshStepCollides | server/log_processor_redis.py:46 | refresh id and step name both `refresh` make the step key equal to the legacy refresh key built at line 343 |
| RedisIngest.StructuredKeysDistinct | server/log_processor_redis.py:316-343 | the refresh-wide and step-level keys differ from each other and from the primary, level and legacy refresh keys |
| RedisIngest.StoreKeepsSetsValid | server/log_processor_redis.py:311-351 | a store keeps every sorted set ranked by score with one entry per member |
| RedisIngest.StatsCounted | server/log_processor_redis.py:353-357 | a store adds one to `total_logs` and one to `level_<level>` of its statistics hash and changes no other counter or hash |
| RedisIngest.LegacyRefreshUntrimmed | server/log_processor_redis.py:341-345 | outside the structured sets the legacy refresh set is never trimmed: it is the old set plus the new entry |
| RedisIngest.KeptLines | server/log_processor_redis.py:153-155 | a file over a positive `max_lines_per_file` keeps exactly its last `max_lines_per_file` lines; a file no longer than the maximum keeps all; a maximum of 0 keeps every line (`lines[-0:]`); a negative maximum `-k` drops the first `k` lines |
| RedisIngest.NonBlank | server/log_processor_redis.py:159-161 | the number of non-blank lines is at most the number of lines |
| RedisIngest.StoreLinesCount | server/log_processor_redis.py:159-166 | the count returned is the number of non-blank lines, and storing lines never touches the metadata hashes |
| RedisIngest.StoreFileBounds | server/log_processor_redis.py:138-171 | a file over the size limit stores nothing and returns 0; otherwise the count is the number of non-blank kept lines, at most the number of lines, at most a positive `max_lines_per_file`, and with a maximum of 0 every non-blank line of the file |
| RedisIngest.NonBlankReverse | server/log_processor_redis.py:158-161 | the number of non-blank lines stored does not depend on the newest-first order of the loop |
| RedisIngest.ChangedFileNewHash | server/log_processor_redis.py:132-136 | a file whose size or modification time changed gets a different metadata key |
| RedisIngest.ProcessTask | server/log_processor_redis.py:94-130 | a task whose file exists, has no readable `processed_at` at or after its mtime, records path, size, the current time, the stored count and the worker in its metadata hash with the log TTL; a missing file, an already-processed file or an unparsable stamp leaves the store unchanged |
| RedisIngest.RecordFile | server/log_processor_redis.py:115-125 | storing a file writes metadata with `processed_at` = now, `logs_count` = the stored count, `worker_id`, `file_path`, `file_size`, and expiry = log TTL |
| RedisIngest.MetaFields | server/log_processor_redis.py:118-124 | the metadata hash holds exactly file_path, file_size, processed_at, logs_count and worker_id with those values |
| RedisIngest.ReprocessingIsNoOp | server/log_processor_redis.py:104-112 | processing the same unchanged file a second time leaves the store as the first run left it |
| RedisProcessor.RedisClient.ZAdd | server/log_processor_redis.py:311 | `ZADD` replaces the set under the key by the set with the member added at its score, and changes nothing else |
| RedisProcessor.RedisClient.Expire | server/log_processor_redis.py:312 | `EXPIRE` sets the expiry of an existing key only, and changes nothing else |
| RedisProcessor.RedisClient.ZRemRangeByRank | server/log_processor_redis.py:313 | `ZREMRANGEBYRANK` removes the rank range; a set left empty is deleted with its expiry |
| RedisProcessor.RedisClient.HIncrBy | server/log_processor_redis.py:355-356 | `HINCRBY` adds the delta to one field of one counter hash, and changes nothing else |
| RedisProcessor.RedisClient.HSet | server/log_processor_redis.py:118-124 | `HSET` with a mapping overwrites those fields of one hash and keeps its others |
| RedisProcessor.RedisClient.HGetAll | server/log_processor_redis.py:104 | `HGETALL` of a missing key is the empty hash |
| RedisProcessor.RedisLogProcessor.constructor | server/log_processor_redis.py:23-36 | a new processor has an empty store, an empty queue, is running, and keeps the queue within its 1000 slots |
| RedisProcessor.RedisLogProcessor.Group | server/log_processor_redis.py:311-313 | one ZADD/EXPIRE/ZREMRANGEBYRANK group leaves the sets as one capped put and sets the key's expiry to the log TTL |
| RedisProcessor.RedisLogProcessor.AddAndExpire | server/log_processor_redis.py:344-345 | an uncapped group adds the entry and sets the expiry, leaving a non-empty set |
| RedisProcessor.RedisLogProcessor.Trim | server/log_processor_redis.py:313 | `zremrangebyrank(key, 0, -(cap+1))` keeps the `cap` highest-ranked entries |
| RedisProcessor.RedisLogProcessor.StoreLogEntry | server/log_processor_redis.py:284-357 | storing an entry leaves the store exactly as the function `StoreEntry` says |
| RedisProcessor.RedisLogProcessor.CountEntry | server/log_processor_redis.py:353-357 | the statistics hash gains one `total_logs` and one `level_<level>`, nothing else changes |
| RedisProcessor.RedisLogProcessor.StructuredGroups | server/log_processor_redis.py:301-327 | the three structured groups leave the sets and expiries as their puts say |
| RedisProcessor.RedisLogProcessor.CommonGroups | server/log_processor_redis.py:329-339 | the primary and level groups leave the sets and expiries as their puts say |
| RedisProcessor.RedisLogProcessor.LegacyGroups | server/log_processor_redis.py:341-351 | the legacy refresh and step groups leave the sets and expiries as their puts say |
| RedisProcessor.RedisLogProcessor.ParseLogLine | server/log_processor_redis.py:225-282 | the line parser's loop over timestamp patterns returns the entry the function `ParseLogLine` gives |
| RedisProcessor.RedisLogProcessor.ParseAndStoreFile | server/log_processor_redis.py:138-171 | the new store and the count are those of the function `StoreFile` |
| RedisProcessor.RedisLogProcessor.StoreReversed | server/log_processor_redis.py:158-166 | the newest-first loop over the kept lines ends in the functional store and count |
| RedisProcessor.RedisLogProcessor.StoreNextLine | server/log_processor_redis.py:159-166 | one loop turn extends the functional result by one line |
| RedisProcessor.RedisLogProcessor.StoreOneLine | server/log_processor_redis.py:160-166 | a blank line changes nothing; any other line is stored and counted once |
| RedisProcessor.RedisLogProcessor.ProcessFileTask | server/log_processor_redis.py:94-130 | processing a task leaves the store as the function `ProcessTask` says |
| RedisProcessor.RedisLogProcessor.WorkerStep | server/log_processor_redis.py:78-92 | an empty queue changes nothing; the stop signal ends the worker with the store untouched; a file task is dequeued and processed; the queue bound and well-formed sets are kept |
| RedisProcessor.LogFileWatcher.constructor | server/log_processor_redis.py:362-363 | the watcher keeps the processor it was given |
| RedisProcessor.LogFileWatcher.OnModified | server/log_processor_redis.py:365-387 | a non-directory `.log` path is queued under its host when the queue holds fewer than 1000 tasks; otherwise the queue is unchanged (dropped, never blocking) |
| RedisProcessor.FindHost | server/log_processor_redis.py:370-375 | the loop over path segments finds the host of `HostOf` |
| RedisProcessor.ProcessTaskKeepsSetsValid | server/log_processor_redis.py:94-130 | processing a task keeps every sorted set ranked with one entry per member |
| RedisProcessor.StoreFileValid | server/log_processor_redis.py:138-171 | storing a file keeps every sorted set well formed |
| RedisProcessor.StoreLinesValid | server/log_processor_redis.py:159-166 | storing any run of lines keeps every sorted set well formed |
| RedisProcessor.StoreLinesStep | server/log_processor_redis.py:159-166 | one more line either changes nothing (blank) or stores one entry and adds one to the count |
| RedisQueries.EnrichFromSet | server/redis_log_api.py:301-310 | the enriched log is the stored document with `host`, `application` and `component` set to the known values, every other field kept, and its message unchanged |
| RedisQueries.EnrichFromKey | server/redis_log_api.py:282-299 | a key with fewer than four `:`-parts tags the log `unknown` three times |
| RedisQueries.EnrichFromKeyRoundTrip | server/redis_log_api.py:284-292 | a key built as `log:host:app:component:…` from colon-free names is read back to the same host, application and component |
| RedisQueries.KeyParts | server/redis_log_api.py:285-292 | splitting such a key on `:` gives the host, application and component at parts 1 to 3 |
| RedisQueries.BaseKey | server/redis_log_api.py:47-52 | the base pattern starts with `log:<host>:` and ends with `:*` |
| RedisQueries.QueryKey | server/redis_log_api.py:54-61 | at most one filter suffix, level before refresh id before step; the key equals the base iff no filter is truthy |
| RedisQueries.WildcardAlways | server/redis_log_api.py:80-89 | every query key holds `*`, so the wildcard branch is always taken and the direct-key branch is unreachable |
| RedisQueries.SetPatternOfBase | server/redis_log_api.py:191 | rewriting the first `log:` to `logs:` turns the base pattern into the set prefix followed by `*` |
| RedisQueries.BasePatternMatches | server/redis_log_api.py:191-194 | for `*`-free names, a set is read iff its key starts with the query's `logs:` prefix |
| RedisQueries.ComponentQuerySkipsPrimary | server/redis_log_api.py:47-48 | a query with an application and a component never reads that component's primary set `logs:host:app:component` |
| RedisQueries.IntendedBaseKey | server/redis_log_api.py:48 | the corrected component pattern still starts with `log:<host>:` |
| RedisQueries.IntendedComponentQueryReadsPrimary | server/redis_log_api.py:47-48 | the corrected pattern reads the component's primary set and every set the pattern as written reads |
| RedisQueries.AppQueryReadsPrimary | server/redis_log_api.py:49-50 | an application query reads the primary set of every component of that application |
| RedisQueries.ScoreText | server/redis_log_api.py:64-70 | a score bound prints without `:` (`+inf` when absent) |
| RedisQueries.ScoreTextInjective | server/redis_log_api.py:64-70 | distinct score bounds print differently |
| RedisQueries.CacheContentInjective | server/redis_log_api.py:209-212 | the cache text determines query key, start score, end score, limit and offset |
| RedisQueries.CacheContentDistinct | server/redis_log_api.py:209-212 | different query keys give different cache texts |
| RedisQueries.CacheKeyIgnoresSearch | server/redis_log_api.py:73 | two queries differing only in search text share a cache key |
| RedisQueries.CacheKeySeesFilters | server/redis_log_api.py:55-73 | adding a level filter changes the cache key |
| RedisQueries.CollectSources | server/redis_log_api.py:191-204 | every collected entry was already collected or comes from a matching non-index set with a score in range |
| RedisQueries.WildcardLogsSpec | server/redis_log_api.py:181-207 | the merge returns at most `limit` entries, each from a matching set that is not a level, refresh or step index, with a score in range |
| RedisQueries.CollectPrefix | server/redis_log_api.py:193-204 | the loop's result is a prefix of all contributions in SCAN order, and is all of them unless it reached `limit` |
| RedisQueries.WildcardLogsShape | server/redis_log_api.py:193-207 | with a non-negative limit the merge is the first `limit` entries of the sets' ZREVRANGEBYSCORE results concatenated in SCAN order, with no re-sort across sets |
| RedisQueries.ContributionsComplete | server/redis_log_api.py:197-200 | contributions under `limit` hold every in-range entry of every matching non-index set |
| RedisQueries.WildcardLogsComplete | server/redis_log_api.py:193-207 | a merge that returns fewer than `limit` entries returns every in-range entry of every matching non-index set |
| RedisQueries.PageLogs | server/redis_log_api.py:92-107 | a page never holds more logs than the entries it is cut from |
| RedisQueries.PageLogsSpec | server/redis_log_api.py:93-104 | every log of a page is tagged with the query's host, application and component and, under a search, mentions the search text case-insensitively |
| RedisQueries.FetchSpec | server/redis_log_api.py:78-116 | a page holds at most `limit` logs and never more than `total`; `total` is at most `limit + offset`; every log is tagged and matches the search |
| RedisQueries.FiltersDoNotChangeFetch | server/redis_log_api.py:55-82 | the level, refresh and step filters never change which logs are fetched |
| RedisQueries.PageLogsFiltersIrrelevant | server/redis_log_api.py:93-104 | the page depends only on host, application, component and search |
| RedisQueries.AddHash | server/redis_log_api.py:226-227 | adding one hash into the totals yields exactly the union of their fields |
| RedisQueries.AddedStep | server/redis_log_api.py:226-227 | one field added keeps the loop's invariant: the field now holds the old total plus the hash's value |
| RedisQueries.AddedAll | server/redis_log_api.py:226-227 | once every field is added the totals are `AddHash` of the two |
| RedisQueries.SumHashesSpec | server/redis_log_api.py:221-228 | a field appears in the roll-up iff some matching hash has it, and its value is the sum of that field over all matching hashes |
| RedisQueries.SearchSetMentions | server/redis_log_api.py:256-267 | every log one set adds mentions the query |
| RedisQueries.SearchCollectMentions | server/redis_log_api.py:240-270 | every log the scan over sets collects mentions the query |
| RedisQueries.SearchSpec | server/redis_log_api.py:232-280 | every hit mentions the query case-insensitively, hits are newest first by timestamp text, at most `limit` are returned, and `total` counts at least those returned |
| RedisQueries.TimeFilter | server/redis_log_api.py:402-420 | empty text gives no bounds; `last hour` gives the last hour to now; `today` from midnight to now; `yesterday` the whole previous day; anything else no bounds; checked in that order |
| RedisQueries.YesterdayEndsAtMidnight | server/redis_log_api.py:414-418 | yesterday's window ends one microsecond before today's midnight and starts one day before it |
| RedisQueries.RouteQuery | server/redis_log_api.py:347-379 | the route caps `limit` at 500 (default 100), defaults `offset` to 0, turns application `all` into no application, passes the time filter's bounds (none without a `time` parameter), and passes host, component, level, refresh id, step and search through unchanged |
| RedisQueries.RedisLogApi.constructor | server/redis_log_api.py:35 | a new API has an empty query cache |
| RedisQueries.RedisLogApi.GetLogs | server/redis_log_api.py:40-125 | a cached key returns the cached page and changes nothing; a miss returns `Fetch` of the current sets and caches it under the key with a 300 s TTL |
| RedisQueries.RedisLogApi.FetchPage | server/redis_log_api.py:78-116 | the page built on a cache miss is the function `Fetch` |
| RedisQueries.RedisLogApi.PageLogsOf | server/redis_log_api.py:92-107 | the page loop builds `PageLogs` of the window |
| RedisQueries.RedisLogApi.WildcardEntries | server/redis_log_api.py:181-207 | the SCAN loop with its early stop returns the function `WildcardLogs` |
| RedisQueries.RedisLogApi.GetStats | server/redis_log_api.py:214-230 | the branch is decided by `'*' in stats_key`: a key without `*` answers that one statistics hash; a key with `*` is a `SCAN` pattern and answers the field-by-field sum over every statistics hash it matches |
| RedisQueries.StatsKeyWildcard | server/redis_log_api.py:215-221 | the statistics key holds `*` exactly when there is no application or the host or the application holds `*`, so `app=*` aggregates like no application |
| RedisQueries.RedisLogApi.SearchLogs | server/redis_log_api.py:232-280 | the search loop returns the function `HostSearch` |
| RedisQueries.RedisLogApi.SearchRoute | server/redis_log_api.py:383-393 | an empty query is answered `Search query required` and only then; otherwise the search runs with `limit` capped at 500 |
| LogApi.MeridiemAt | log_api.py:270 | the `\s*(am\|pm)` part of the around-pattern: after any run of spaces, `am` gives not-pm and `pm` gives pm, nothing else matches, and no meridiem starts on a digit |
| LogApi.AmPmAt | log_api.py:270 | `(\d{1,2})\s*(am\|pm)` at one position: a match exists exactly when a digit is followed by a meridiem directly or after a second digit; with a second digit the hour is the two-digit number, otherwise the one digit, each with the meridiem found after it |
| LogApi.ClockHour | log_api.py:272-276 | pm adds 12 unless the hour is 12, 12 am becomes 0, other hours pass through unchanged (so 13 pm is 25) |
| LogApi.DayWindow | log_api.py:263-308 | on the chosen day, `around N am/pm` gives the two hours from the converted hour, an hour of 24 or more gives no window (the swallowed `replace` error), and otherwise the whole day |
| LogApi.MinutesWindow | log_api.py:315-322 | the first `N minutes` gives the window of N minutes ending now; without one there is no window |
| LogApi.ApiTimeFilter | log_api.py:253-334 | the branches are tried in the source's order (yesterday, today, last hour, last minutes, ISO with `T`), each window ends after it starts, and every failure gives no window |
| LogApi.IsoAwareOf | log_api.py:325-329 | an ISO text parses to an aware instant exactly when its time part carries an offset sign |
| LogApi.IsoAwareExamples | log_api.py:325-329 | `2025-06-06T07:00:00` parses naive and `2025-06-06T07:00:00-07:00` parses aware |
| LogApi.WholeDayWindows | log_api.py:263-308 | `yesterday` is checked before `today`; without `around` either gives midnight to 23:59:59.999999 of the day before now or of today |
| LogApi.DayBranch | log_api.py:263-308 | a text that names yesterday or today is decided by the day branch alone |
| LogApi.AroundWindows | log_api.py:266-281 | `around N am/pm` gives two hours from the converted hour of that day, and no window when the hour is 24 or more or no hour is found |
| LogApi.LastHourWindow | log_api.py:310-313 | `last … hour` is always the hour ending now, whatever number it names |
| LogApi.LastMinutesWindow | log_api.py:315-322 | `last N minutes` is the N minutes ending now, and there is no window when no `N minutes` is found |
| LogApi.OtherWindows | log_api.py:324-334 | any other text gives a window only if it holds a `T` and parses, and then it is the hour centred on the parsed instant |
| LogApi.ApiLevel | log_api.py:522-530 | a line is ERROR iff it holds an error keyword, WARNING iff a warning keyword and no error keyword, DEBUG iff a debug keyword and neither of the others, INFO otherwise |
| LogApi.ApiLevelPriority | log_api.py:522-530 | an error keyword wins over every other, a warning keyword over the debug ones, and a line with none of them is INFO |
| LogApi.DetectApplication | log_api.py:496-509 | each answer holds exactly when its marker group matches and every earlier group fails: the seven sports-scheduler markers, then the four auto-scraper markers, then `nginx`, then `gunicorn`, else `unknown` |
| LogApi.ApplicationOf | log_api.py:488-509 | with a filter other than `all`, the line keeps that application iff it mentions it (or its underscore form) and is skipped otherwise; without one the detected application is used |
| LogApi.IntendedStepStatus | log_api.py:577-585 | with `starting.*workflow` searched as a pattern, the status differs from the as-written one only by giving `workflow_started` where the literal test gives nothing, and it does so exactly when the pattern matches |
| LogApi.LiteralMatchesPattern | log_api.py:584 | every line the literal test accepts the pattern accepts too, so the intended reading loses nothing |
| LogApi.LineMetadata | log_api.py:559-585 | the metadata holds the first `step N` number, the first `[Refresh-digits]` tag and the step status, and a field is present exactly when its pattern is found |
| LogApi.KeepIfMatchesSpec | log_api.py:532-557 | the search, pattern, level and refresh-id tests keep an entry exactly when all of them admit it, and keep it unchanged |
| LogApi.ProcessLineSpec | log_api.py:474-599 | a line is kept exactly when it is non-blank and every filter admits its entry, and the kept entry is that entry |
| LogApi.FilterCandidateSpec | log_api.py:482-557 | the chain of `continue`s keeps a line's entry exactly when every filter admits it |
| LogApi.CandidateApplication | log_api.py:587-597 | the entry keeps the stripped line as its message and takes the filtered application when a filter is given |
| LogApi.FileLines | log_api.py:468-472 | a file contributes all its lines when it has at most 200001, and exactly its first 200001 otherwise |
| LogApi.ScanLinesSource | log_api.py:474-603 | one file's loop only appends, and only entries its loop body keeps |
| LogApi.ScanFilesSource | log_api.py:457-610 | the file loop only appends, and only entries that some line of a file within the size limit gives |
| LogApi.KeptFromTail | log_api.py:457-610 | whatever a later file keeps, the whole file list keeps |
| LogApi.KeptFromHead | log_api.py:457-610 | whatever the first file keeps, the whole file list keeps |
| LogApi.KeptIsAdmitted | log_api.py:474-599 | every collected entry is the entry of one of its lines and is admitted by every filter |
| LogApi.PageOfNewestFirst | log_api.py:612-629 | dropping `offset` (when positive) and taking `limit` keeps the newest-first order, keeps only entries of the list and keeps at most `limit` |
| LogApi.ReadLogsSpec | log_api.py:425-629 | the result holds only entries of lines that pass every filter, from files within the size limit, newest first by timestamp text, and at most `min(limit, 10000)` of them |
| LogApi.ScanLinesRaising | log_api.py:464-606 | a file whose every line is skipped or raises adds nothing |
| LogApi.ScanFilesRaising | log_api.py:457-610 | when every line is skipped or raises, no file adds anything |
| LogApi.NaiveWindowReadsNothing | log_api.py:464-606 | with naive bounds every non-blank line raises at the time comparison and its file is abandoned, so the read returns nothing |
| LogApi.ReadLogsWithFilters | log_api.py:425-629 | the imperative read equals the collect, sort and page of the functional read, whose properties are ReadLogsSpec |
| LogApi.ScanLogFiles | log_api.py:457-610 | the file loop skips oversized files, leaves a file's line loop at `limit * 5` entries and the file loop at `limit * 3`, and equals the recursive scan |
| LogApi.ReadFileLines | log_api.py:468-472 | the `enumerate` loop keeps exactly the first 200001 lines |
| LogApi.ScanFileLines | log_api.py:474-603 | one file's line loop equals the recursive scan of that file |
| LogApi.ScanLinesWith | log_api.py:474-603 | for any line body, the loop appends each kept line in order, stops right after the append that reaches `cap * 5` and at the first line that raises, exactly as the recursive scan describes |
| LogApi.RouteLimit | log_api.py:684-694 | the limit is `min(limit, 500)`: at most both, and equal to one of them; 100 when not given |
| LogApi.RouteOffset | log_api.py:691-695 | the offset is `min(offset, 10000)`: at most both, and equal to one of them; 0 when not given |
| LogApi.ByLogType | log_api.py:716-721 | `errors` keeps exactly the ERROR entries, `lastrun` exactly those whose lower-cased message holds a run keyword, and every other type keeps all, in order |
| LogApi.HostLogsCanOverrun | log_api.py:701-714 | as written, a page with positive offset returns `min(limit + offset, 10000)` entries, more than `limit` (limit 10, offset 10 and 30 matches give 20) |
| LogApi.NaiveTimeGivesNothing | log_api.py:483-486 | an ISO `time` without an offset gives naive bounds, and the route then returns no entries whatever the files hold |
| LogApi.HostLogsPagedSpec | log_api.py:694-714 | the corrected route returns at most `limit` entries, and for the default type exactly the slice `[offset:offset + limit]` of the sorted collection |
| LogApi.PageWithinCap | log_api.py:616-629 | taking `limit` entries after dropping `offset` from a page capped at `cap >= limit` is the slice `[offset:offset + limit]` |
| ComponentTable.RulesOf | log_api.py:164-251 | exactly `sports-scheduler` and `auto-scraper` have a component table |
| ComponentTable.IdentifySpec | log_api.py:336-356 | without a table the answer is `general` with no step; otherwise the answer is the first component in table order one of whose patterns matches the lower-cased message, with the first of its steps in order one of whose patterns matches, and `general` when no component matches |
| ComponentTable.IdentifyInSpec | log_api.py:343-356 | the nested loops return the first matching component and its first matching step, scanning in table order |
| ComponentTable.UnknownApplicationIsGeneral | log_api.py:338-339 | an application without a table entry is always `general` without a step |
| ComponentTable.RefreshPatternNeverMatches | log_api.py:167 | `\[Refresh-\d+\]` is searched in the lower-cased message, so its capital `R` is never found |
| ComponentTable.StepOf8Found | log_api.py:169-176 | `step\s*k/8` is found wherever the message says `step k/8` |
| ComponentTable.OrchestratorStepOne | log_api.py:166-169 | a sports-scheduler message mentioning the orchestrator and `Step 1/8` is identified as `iptv-orchestrator`, `step-1` |
| Timestamps.FractionLen | log_api.py:387-388 | the greedy `(?:\.\d+)?` takes a dot and the whole digit run after it, or nothing |
| Timestamps.MatchAt | log_api.py:386-391 | a match at a position is the text found there, of the exact shape of its pattern: offset form (at least 25 characters ending in an offset), local ISO form, standard form (19) or syslog form (15) |
| Timestamps.FirstParsed | log_api.py:393-423 | the patterns are tried in their listed order and the first whose match also parses decides; no result means every pattern failed to match or to parse |
| Timestamps.OffsetFormInterpretation | server/log_processor_redis.py:243-244 | a text of the offset shape is handed to `fromisoformat` unchanged, in both the Redis processor and the query API |
| Timestamps.LocalFormInterpretation | server/log_processor_redis.py:245-246 | a text of the local ISO shape is handed to `fromisoformat`, with its `T` made a space by the Redis processor and unchanged by the query API |
| Timestamps.StandardFormInterpretation | log_api.py:409-412 | a text of the standard shape goes to its `strptime` |
| Timestamps.SyslogFormInterpretation | log_api.py:413-417 | a text of the syslog shape goes to the syslog `strptime` unless its month word holds a `T` |
| Timestamps.RecognisesNumOffset | log_api.py:387 | a date-time with a numeric offset at the front of a line is matched in full by the offset pattern, whatever follows it |
| Timestamps.FractionLenOf | log_api.py:387-388 | the fraction length is exactly the length of the fraction written there |
| Timestamps.ZuluReadAsLocal | log_api.py:387-388 | a `Z` suffix is not an offset: the offset pattern fails on it and the local pattern stops before it, so the time is read as local |
| LineTags.RefreshTagAt | server/log_processor_redis.py:263 | a capture at a position is a non-empty digit run written there as `[Refresh-digits]` |
| LineTags.RefreshTag | log_api.py:568-570 | the refresh id found is a non-empty digit run that the line holds as `[Refresh-digits]` |
| LineTags.RefreshTagExact | server/log_processor_redis.py:263-264 | a `[Refresh-digits]` tag at a position is read back with exactly its digits |
| LineTags.RefreshTagAbsent | server/log_processor_redis.py:263-264 | no refresh id is found exactly when the line holds no `[Refresh-digits]` tag |
| LineTags.StepAt | server/log_processor_redis.py:269-270 | the capture is the digit run after `step` and any spaces; the optional `/8` or `/9` never changes it |
| LineTags.StepNumber | log_api.py:563-565 | the step number found is a non-empty digit run |
| Time.Seconds | server/log_processor_redis.py:294 | `int(dt.timestamp())` is the whole seconds of the instant truncated toward zero, for negative instants too |
| Time.StartOfDay | log_api.py:283 | midnight of the day holding the instant: at most the instant, less than a day before it, and a whole number of days |
| Time.AtHour | log_api.py:278 | `replace(hour=h, ...)` stays on the same day and lies exactly h hours after its midnight |
| Time.EndOfDay | log_api.py:284 | `replace(hour=23, ..., microsecond=999999)` is the last microsecond of the same day |
| Time.WithinDay | log_api.py:283-284 | an offset of less than a day from a midnight stays in that day |
| LegacyProcessor.AppForName | server/processors/log_processor.py:122-129 | the application is the first of the host's list whose name occurs in the lower-cased file name, else the host's first application |
| LegacyProcessor.PrefixesExclusive | server/processors/log_processor.py:30-36 | the five path prefixes are distinct and equally long, so a path starts with at most one of them |
| LegacyProcessor.HostApplicationSpec | server/processors/log_processor.py:115-136 | a path under no prefix gives `unknown`/`unknown`; a path under a prefix gets that prefix's host and the application its file name selects |
| LegacyProcessor.HostApplicationListed | server/processors/log_processor.py:115-136 | the host is `unknown` exactly when the application is, and otherwise the application is one the host's mapping lists |
| LegacyProcessor.MappingFacts | server/processors/log_processor.py:30-56 | no mapping names `unknown`, and only `ssdev` lists the two applications that have component tables |
| LegacyProcessor.ExtractLevel | server/processors/log_processor.py:163-174 | the level is ERROR, WARNING, DEBUG or INFO |
| LegacyProcessor.ExtractLevelPriority | server/processors/log_processor.py:163-174 | each level is answered exactly when its keywords occur in the upper-cased message and no higher-priority keyword does |
| LegacyProcessor.LevelIgnoresCase | server/processors/log_processor.py:163-165 | the level does not depend on the case of the message |
| LegacyProcessor.LineRest | server/processors/log_processor.py:24-26 | `.+$` matches a non-empty run without line breaks that is the whole rest of the text, or all of it but a final line break |
| LegacyProcessor.LineRestWhole | server/processors/log_processor.py:24-26 | a non-empty text without a line break is matched whole by `.+$` |
| LegacyProcessor.LineRestBeforeBreak | server/processors/log_processor.py:24-26 | before a final line break `.+$` stops at the break |
| LegacyProcessor.SpacedCut | server/processors/log_processor.py:24 | the greedy `\s+` of `\s+(.+)$` keeps the largest count of spaces that still leaves a `.+$` match |
| LegacyProcessor.RestAfterOneSpace | server/processors/log_processor.py:24 | after a single space, a one-line message not starting with a space is captured whole |
| LegacyProcessor.RsyslogStampLen | server/processors/log_processor.py:24 | the rsyslog timestamp at the start of a line is found with its exact length, or not at all |
| LegacyProcessor.RsyslogStampFound | server/processors/log_processor.py:24 | a well-formed rsyslog timestamp is found in full whatever follows it |
| LegacyProcessor.ExtractComponents | server/processors/log_processor.py:138-161 | for an rsyslog line, or a line of no known form, the level is the keyword level of the message returned; the round-trip lemmas give the parts of each form |
| LegacyProcessor.RsyslogRoundTrip | server/processors/log_processor.py:141-146 | an rsyslog line `stamp message` gives back the stamp, the message and its keyword level |
| LegacyProcessor.AppRoundTrip | server/processors/log_processor.py:148-152 | an application line `[date time] WORD message` gives back the stamp, the message and the word upper-cased |
| LegacyProcessor.AppLineParts | server/processors/log_processor.py:25 | an application line is not an rsyslog line, and its parts are the bracketed stamp, the word and the message |
| LegacyProcessor.AppLineStamp | server/processors/log_processor.py:25 | the bracketed stamp's text inside an application line |
| LegacyProcessor.AppStampFound | server/processors/log_processor.py:25 | a bracketed `[date time]` stamp is found whatever follows it |
| LegacyProcessor.WordAndRestFound | server/processors/log_processor.py:25 | ` WORD message` gives back the word and the message |
| LegacyProcessor.FirstComponent | server/processors/log_processor.py:179-185 | the first component in table order whose pattern is found, else `general` |
| LegacyProcessor.IdentifyComponent | server/processors/log_processor.py:176-189 | a component other than `general` is only found for the two applications that have pattern tables |
| LegacyProcessor.IdentifyComponentSpec | server/processors/log_processor.py:176-189 | either no component of the application's table matches (or it has none) and the answer is `general`, or the answer is the first component with a matching pattern |
| LegacyProcessor.ListCreatorEventIsListCreator | server/processors/log_processor.py:39-56 | a message the list-creator analysers store is identified as the `list-creator` component, which both tables try first |
| LegacyProcessor.ParseLogLine | server/processors/log_processor.py:85-113 | the entry keeps the file path and the raw line; ParsedEntryConsistent relates its host, application and component |
| LegacyProcessor.ParsedEntryConsistent | server/processors/log_processor.py:85-113 | a parsed entry's host is `unknown` exactly when its application is, and a component other than `general` only comes with host `ssdev` |
| LegacyService.LPushDb | server/processors/log_processor.py:201 | `LPUSH` puts the value at the head of its list and changes no other list |
| LegacyService.PushTrimSpec | server/processors/log_processor.py:201-202 | a push followed by a trim to the `n` newest leaves the key present, holding the value followed by the first `n - 1` old entries, keeping its expiry, with no other list changed |
| LegacyService.KeyKinds | server/processors/log_processor.py:199-282 | the recent, host, application, component, daily, error and list-creator keys never collide across kinds |
| LegacyService.CappedPushesFrame | server/processors/log_processor.py:199-217 | the four capped pushes change no expiry and no list but their four |
| LegacyService.CappedPushesSpec | server/processors/log_processor.py:199-217 | after the capped pushes the entry heads the recent, host, application and component lists, which keep at most 1000, 500, 200 and 100 entries |
| LegacyService.StoreEntrySpec | server/processors/log_processor.py:191-222 | the daily list gains the entry untrimmed and expires in seven days; every other list is as the capped pushes left it |
| LegacyService.PushTrimExpireSpec | server/processors/log_processor.py:252-254 | one capped push with an expiry: the entry heads the list, the list holds at most `cap`, the key expires in `seconds`, and nothing else changes |
| LegacyService.AnalyzeSpec | server/processors/log_processor.py:228-282 | an error event heads its host and application's error list (at most 50, expiring in a day) and any other entry leaves it alone; a list-creator mention from either scheduler application heads that application's list-creator list; nothing else changes |
| LegacyService.ProcessLineCountsToday | server/processors/log_processor.py:60-83 | every processed line adds exactly one to the day's count |
| LegacyService.ErrorWordsAreErrorKeys | server/processors/log_processor.py:163-236 | each of the analyser's error words, upper-cased, holds one of the level classifier's error keywords |
| LegacyService.ErrorEventIsErrorLevel | server/processors/log_processor.py:228-236 | for an rsyslog line or a line of no known form the error event fires exactly when the level is ERROR |
| LegacyService.GetLogsWindow | server/processors/log_processor.py:284-309 | with offset at least 0 and a positive limit the answer is the `limit`-item window at `offset` of the key the filters select, filtered by level after paging, and at most `limit` entries |
| LegacyService.GetLogsZeroLimit | server/processors/log_processor.py:299 | `limit=0` at offset 0 reads `LRANGE key 0 -1`, the whole list |
| LegacyService.StoredEntryReadBack | server/processors/log_processor.py:191-222 | after a store, every one-item read naming the entry's own host, application and component (or `all`) answers that entry first |
| LegacyService.ReadHead | server/processors/log_processor.py:284-305 | a one-item read at offset 0 answers the head of the list it reads when the head has the level asked for |
| LegacyService.SearchSpec | server/processors/log_processor.py:311-328 | with a positive limit the search answers at most `limit` entries, each mentioning the query case-insensitively and drawn from the first `2*limit` entries; answering fewer means it missed none of them |
| LegacyService.SearchZeroLimit | server/processors/log_processor.py:311-328 | with `limit=0` the page is the whole list and the search answers its first matching entry, if any |
| LegacyService.HostSources | server/processors/log_processor.py:339-341 | one mapping gives `host:app` for each of its applications, in order |
| LegacyService.SourcesSpec | server/processors/log_processor.py:334-345 | a source is listed exactly when it is `host:app` for an application of one of the mappings |
| LegacyService.SourcesAppend | server/processors/log_processor.py:338-341 | the first mappings' sources come before the rest's |
| LegacyService.ActiveSourceCount | server/processors/log_processor.py:30-36 | the five mappings list sixteen sources |
| LegacyService.FirstHits | server/processors/log_processor.py:322-326 | a scan that stopped at the end or on reaching `n` hits holds the first `n` hits, or all when there are fewer |
| LegacyService.ListClient.constructor | server/processors/log_processor.py:17-19 | the client starts with no lists and no expiries |
| LegacyService.ListClient.LPush | server/processors/log_processor.py:201 | the new state is the old with the value pushed at the head of the key's list |
| LegacyService.ListClient.LTrim | server/processors/log_processor.py:202 | the new state is the old with the key's list trimmed; a list left empty is deleted with its expiry |
| LegacyService.ListClient.Expire | server/processors/log_processor.py:222 | the new state is the old with the key's expiry set |
| LegacyService.ListClient.LRange | server/processors/log_processor.py:299 | answers the Redis range of the key's list and changes nothing |
| LegacyService.ListClient.LLen | server/processors/log_processor.py:351 | answers the length of the key's list and changes nothing |
| LegacyService.LogProcessor.constructor | server/processors/log_processor.py:17-20 | the processor keeps the client it is given |
| LegacyService.LogProcessor.ProcessLogLine | server/processors/log_processor.py:60-83 | the store is changed exactly as parsing, storing and analysing the line specify |
| LegacyService.LogProcessor.StoreLogEntry | server/processors/log_processor.py:191-226 | the store is changed exactly by the five pushes of a store |
| LegacyService.LogProcessor.AnalyzeLogEntry | server/processors/log_processor.py:228-245 | the store is changed exactly by the error and application analyses |
| LegacyService.LogProcessor.HandleErrorEvent | server/processors/log_processor.py:247-260 | the store is changed exactly by the capped error push with its one-day expiry |
| LegacyService.LogProcessor.AnalyzeAppEvent | server/processors/log_processor.py:262-282 | the store is changed exactly by the list-creator push of the entry's application |
| LegacyService.LogProcessor.GetLogs | server/processors/log_processor.py:284-309 | answers the specified page, which GetLogsWindow describes |
| LegacyService.LogProcessor.SearchLogs | server/processors/log_processor.py:311-332 | the loop that stops at `limit` hits answers the specified search, which SearchSpec describes |
| LegacyService.LogProcessor.GetActiveSources | server/processors/log_processor.py:334-345 | the nested loop answers the sources of the five mappings, which SourcesSpec describes |
| LegacyService.LogProcessor.GetLogsCountToday | server/processors/log_processor.py:347-354 | answers the length of the day's list |
| RouteLogs.BarField | scripts/route-structured-logs.py:25 | `([^\|]+)\|` takes a non-empty field free of bars, and the field, a bar and the rest make up the text |
| RouteLogs.BarFields | scripts/route-structured-logs.py:25 | the five field groups give exactly the number of fields asked for |
| RouteLogs.DotRest | scripts/route-structured-logs.py:25 | `(.*)` takes the longest prefix without a line break: it stops at the first line break or the end |
| RouteLogs.TokenAndSpaces | scripts/route-structured-logs.py:37 | `(\S+)\s+` takes a non-empty leading token of the text |
| RouteLogs.FindRoute | scripts/route-structured-logs.py:25-27 | a match has exactly five fields |
| RouteLogs.BarFieldsGood | scripts/route-structured-logs.py:25 | every field found is non-empty and free of bars and line breaks |
| RouteLogs.BarFieldsText | scripts/route-structured-logs.py:25 | the fields found, each followed by a bar, and the rest give back the text |
| RouteLogs.BarFieldOf | scripts/route-structured-logs.py:25 | a good field followed by a bar is read back with the rest unchanged |
| RouteLogs.BarFieldsOf | scripts/route-structured-logs.py:25 | good fields written with their bars are read back exactly, whatever follows |
| RouteLogs.DotRestWhole | scripts/route-structured-logs.py:25 | a text without a line break is all of `(.*)` |
| RouteLogs.RouteAtSome | scripts/route-structured-logs.py:25 | a match at a position has five good fields, a one-line message, and its marker, fields and message are written there |
| RouteLogs.RouteAtOf | scripts/route-structured-logs.py:25 | `ROUTE\|` and five good fields at a position are read back with the message up to the first line break |
| RouteLogs.ParseFound | scripts/route-structured-logs.py:16-57 | a line parses exactly when a `ROUTE\|` match exists at some position |
| RouteLogs.FoundSomewhere | scripts/route-structured-logs.py:25 | the match the search returns is a match at some position of the line |
| RouteLogs.MatchInLine | scripts/route-structured-logs.py:25 | the fields and message found are written in the line after `ROUTE\|` |
| RouteLogs.ParseFields | scripts/route-structured-logs.py:29-57 | a parsed record's five routing fields and message are written in the line after `ROUTE\|`, and its timestamp, hostname and tag come from the header or the fallback |
| RouteLogs.ParseAccepts | scripts/route-structured-logs.py:25-27 | a line holding `ROUTE\|` and five good fields at some position always parses |
| RouteLogs.TokenAndSpacesOf | scripts/route-structured-logs.py:37 | a token followed by a space and a non-space character is read back as that token |
| RouteLogs.NoMarkerInHeader | scripts/route-structured-logs.py:25 | no `ROUTE\|` occurs before the first bar of a line |
| RouteLogs.SyslogLayout | scripts/route-structured-logs.py:19-22 | a syslog line `timestamp hostname tag ROUTE\|...` has its marker right after the header and no bar before it |
| RouteLogs.SyslogHeader | scripts/route-structured-logs.py:37-41 | the header of such a line gives back its timestamp, hostname and tag |
| RouteLogs.FindRouteAt | scripts/route-structured-logs.py:25 | the leftmost match is the one at the first position where one exists |
| RouteLogs.ParseSyslogLine | scripts/route-structured-logs.py:16-57 | parsing a well-formed syslog line gives back exactly the record it was written from |
| RouteLogs.StepFileSegments | scripts/route-structured-logs.py:62-63 | the step file is `/var/log/centralized/host/app/component/refresh_id/step_name.log` |
| RouteLogs.StepFileParts | scripts/route-structured-logs.py:62-63 | the step file's path parts are the root, the four base segments and the five routing segments |
| RouteLogs.StepFileRoundTrip | scripts/route-structured-logs.py:62-63 | the Redis processor reads the refresh id and step name back from the orchestrator's step file |
| RouteLogs.StepFileComponent | scripts/route-structured-logs.py:62-63 | the Redis processor reads the component `iptv-orchestrator` back from its step file |
| RouteLogs.RouteLineSkips | scripts/route-structured-logs.py:84-97 | only a non-blank line holding `ROUTE\|` is routed |
| RouteLogs.SyslogLineKept | scripts/route-structured-logs.py:85-91 | a well-formed syslog line is unchanged by strip and holds `ROUTE\|` |
| RouteLogs.RouteSyslogLine | scripts/route-structured-logs.py:81-102 | routing a well-formed syslog line writes `timestamp hostname tag message` to the step file its record names |
| SportsLogging.ComponentLoggerName | sports_scheduler_logging.py:204-207 | the logger name is `sports_scheduler.` followed by the component with every `-` made `_` and every other character kept |
| SportsLogging.ComponentLoggersDistinct | sports_scheduler_logging.py:173-185 | the seven components get seven distinct logger names |
| SportsLogging.HandlerFileRead | sports_scheduler_logging.py:17-24 | a component's handler file is `<component>.log` in the default directory, and the Redis processor reads it as application `sports-scheduler` on host `ssdev` |
| SportsLogging.StepTags | sports_scheduler_logging.py:67-74 | a step message of refresh `r` for step `n` is read back with step number `n` and refresh id `r` |
| SportsLogging.StepMetadata | sports_scheduler_logging.py:67-122 | the log API's metadata reader gives step `n` and `Refresh-r` for such a message |
| SportsLogging.StepStartRead | sports_scheduler_logging.py:67-76 | a step-start message whose name and details avoid `completed` and `failed` is read back as step `n` of `Refresh-r` with status `started` |
| SportsLogging.StepProgressTags | sports_scheduler_logging.py:78-87 | a progress message is logged at INFO and read back as step `n` of refresh `r`, whatever its text |
| SportsLogging.StepCompleteSays | sports_scheduler_logging.py:89-91 | every step-complete message says `completed successfully` |
| SportsLogging.StepCompleteRead | sports_scheduler_logging.py:89-111 | a step-complete message is read back as step `n` of `Refresh-r` with status `completed`, whatever its name, timing and results |
| SportsLogging.StepErrorRead | sports_scheduler_logging.py:113-122 | a step-error message is logged at ERROR and read back as step `n` of `Refresh-r` with status `failed` |
| SportsLogging.WorkflowStartUnread | sports_scheduler_logging.py:124-130 | as written, the log API finds no status in a workflow-start message, since it tests the literal text `starting.*workflow` |
| SportsLogging.WorkflowStartRead | sports_scheduler_logging.py:124-130 | with the pattern searched as intended, a workflow-start message is read back with status `workflow_started` |
| SportsLogging.WorkflowCompleteRead | sports_scheduler_logging.py:132-152 | a workflow-complete message is logged at INFO and read with status `completed`, with or without a refresh id |
| SportsLogging.WorkflowErrorNamesStep | sports_scheduler_logging.py:154-167 | a workflow error with a failed step is logged at ERROR and names that step |
| SportsLogging.WorkflowErrorWithoutStep | sports_scheduler_logging.py:158-159 | without a failed step the message names none |
| SportsLogging.RefreshTagged | sports_scheduler_logging.py:73-74 | a message of a refresh carries that refresh's tag, read back exactly |
| SportsLogging.RefreshUntagged | sports_scheduler_logging.py:73-74 | without a refresh id the message is unchanged and carries no tag |
| FileMonitor.ReadLines | server/monitors/file_monitor.py:40 | `readlines()` gives no lines exactly for empty text, no empty line, and a line break ending every line but the last |
| FileMonitor.ReadLinesConcat | server/monitors/file_monitor.py:40 | the lines joined give back the text read |
| FileMonitor.ReadLinesAppend | server/monitors/file_monitor.py:40 | text that ends at a line break splits into its own lines followed by the lines of what comes after |
| FileMonitor.FirstLineOf | server/monitors/file_monitor.py:40 | the first line of a text ending in a line break runs to its first line break |
| FileMonitor.Deliveries | server/monitors/file_monitor.py:46-50 | at most one delivery per line, each with the file's path and a non-empty stripped line |
| FileMonitor.DeliveriesAppend | server/monitors/file_monitor.py:47-50 | delivering two runs of lines delivers the first run's lines and then the second's |
| FileMonitor.DeliveriesOne | server/monitors/file_monitor.py:48-50 | a line is delivered stripped exactly when its stripped text is not empty |
| FileMonitor.ProcessIdempotent | server/monitors/file_monitor.py:29-53 | processing a file twice without a change delivers nothing the second time and moves no position |
| FileMonitor.GrowthDeliversOnce | server/monitors/file_monitor.py:29-53 | processing a file, then the same file grown by more text, leaves the same positions and deliveries as one processing of the grown file, when the stored position is the file's end or follows a line break |
| FileMonitor.ProcessNew | server/monitors/file_monitor.py:33-50 | with unread text the position moves to the file's end and the unread lines are delivered |
| FileMonitor.ProcessWithinFiles | server/monitors/file_monitor.py:29-53 | positions never pass the end of their files |
| FileMonitor.InitPositions | server/monitors/file_monitor.py:166-184 | setting the start positions delivers nothing |
| FileMonitor.InitPositionAtEnd | server/monitors/file_monitor.py:173-179 | every existing file starts at its end |
| FileMonitor.InitThenQuiet | server/monitors/file_monitor.py:166-184 | an existing file that has not grown since the start delivers nothing |
| FileMonitor.LogFileHandler.constructor | server/monitors/file_monitor.py:18-21 | a new handler has no positions and has delivered nothing |
| FileMonitor.LogFileHandler.ProcessLogFile | server/monitors/file_monitor.py:29-53 | the handler's positions and deliveries change exactly as processing the file specifies |
| FileMonitor.LogFileHandler.DeliverLines | server/monitors/file_monitor.py:47-50 | the loop delivers exactly the stripped non-empty lines and moves no position |
| FileMonitor.LogFileHandler.DeliverLine | server/monitors/file_monitor.py:48-50 | one line is delivered stripped when it is not blank, and no position moves |
| FileMonitor.LogFileHandler.OnModified | server/monitors/file_monitor.py:23-27 | only a modification event of a `.log` file that is not a directory is processed |
| FileMonitor.LogFileMonitor.constructor | server/monitors/file_monitor.py:58-67 | a new monitor watches no path, is not running, has not started its one observer, and has a fresh handler with no positions |
| FileMonitor.LogFileMonitor.IsRunning | server/monitors/file_monitor.py:112-114 | the monitor is reported running only when it was started |
| FileMonitor.LogFileMonitor.Start | server/monitors/file_monitor.py:71-95 | a start while running changes nothing; otherwise the log base directory is watched; the first start ever sets the flag and every existing file's position to its end; a start after a stop restarts the same observer thread, which raises, so the monitor ends not running and no position moves |
| FileMonitor.LogFileMonitor.InitializeExistingFiles | server/monitors/file_monitor.py:166-184 | every found file's position is set to its end |
| FileMonitor.LogFileMonitor.Stop | server/monitors/file_monitor.py:97-110 | the monitor stops and keeps its paths; the observer stays one that has been started |
| FileMonitor.LogFileMonitor.AddPath | server/monitors/file_monitor.py:116-126 | the path is normalised as `str(Path(path))` (keeping a `//` root, as pathlib does) and watched only when it exists; the running flag is unchanged |
| Paths.RootOf | server/monitors/file_monitor.py:118-120 | pathlib's root: none exactly when the text does not open with `/`, `//` exactly for two leading slashes not followed by a third, `/` otherwise |
| Paths.ParseTrailingSlash | server/monitors/file_monitor.py:118-120 | `Path(s + "/")` is `Path(s)` for every `s` other than the bare roots `/` and `//`, so adding `/var/log/centralized/` watches `/var/log/centralized` |
| Paths.DoubleSlashRoot | server/monitors/file_monitor.py:118-120 | `Path("//")` is the root `//` of its own, not `Path("/")`, while `Path("///")` is `Path("/")` |
| Paths.ParseStr | server/monitors/file_monitor.py:118-120 | `Path(str(p))` is `p` for a path in normal form, so normalising an already normalised path changes nothing |
| FileMonitor.LogFileMonitor.RemovePath | server/monitors/file_monitor.py:128-137 | the path is no longer watched, and the running flag is unchanged |
| FileMonitor.LogFileMonitor.GetMonitoredPaths | server/monitors/file_monitor.py:139-141 | answers the watched paths |
| FileMonitor.LogFileMonitor.ForceScan | server/monitors/file_monitor.py:186-199 | every found file is processed once, in order |
| Scheduler.TickTask | server/schedulers/scheduler_manager.py:121-144 | a due task that succeeds counts a run and records the time; a due task that raises counts an error and keeps its last run; a task not yet due is unchanged; interval and description never change |
| Scheduler.NotDueAgainTooSoon | server/schedulers/scheduler_manager.py:124-133 | after a successful run a task with a positive interval is due again exactly when its interval has passed |
| Scheduler.FailureStaysDue | server/schedulers/scheduler_manager.py:141-143 | a task whose run raised stays due at every later tick |
| Scheduler.TickCounts | server/schedulers/scheduler_manager.py:121-144 | one tick adds exactly one run or one error to a due task and nothing to another |
| Scheduler.TaskInfos | server/schedulers/scheduler_manager.py:94-107 | the report names exactly the registered tasks with their run and error counts |
| Scheduler.NextRunIsWhenDue | server/schedulers/scheduler_manager.py:105 | the next run is `pending` exactly when the task never ran, and otherwise the task is due exactly from that time |
| Scheduler.TickAll | server/schedulers/scheduler_manager.py:117-144 | a tick keeps the set of tasks |
| Scheduler.TickAllRunsDue | server/schedulers/scheduler_manager.py:121-144 | a task's run count grows by one in a tick exactly when it is due and does not raise, and a task not due is untouched |
| Scheduler.ForceRun | server/schedulers/scheduler_manager.py:262-290 | a forced run keeps the set of tasks, answers true exactly when the task exists and does not raise, and changes nothing for a missing name |
| Scheduler.ForceRunIgnoresInterval | server/schedulers/scheduler_manager.py:262-284 | a forced run counts a run and records the time whatever the interval, leaves the task not due at that time when its interval is positive, and changes no other task |
| Scheduler.DefaultTasks | server/schedulers/scheduler_manager.py:155-191 | four default tasks are registered |
| Scheduler.DefaultsFirstTick | server/schedulers/scheduler_manager.py:155-191 | on the first tick every default task is due and none has a next run yet |
| Scheduler.CleanupOldLogs | server/schedulers/scheduler_manager.py:213-234 | exactly the daily lists of 8 to 14 days ago are deleted, and every other day is kept |
| Scheduler.RecordSummary | server/schedulers/scheduler_manager.py:249-252 | the summary heads the history, which then holds at most 288 entries, the older ones in order |
| Scheduler.SchedulerManager.constructor | server/schedulers/scheduler_manager.py:15-24 | a new manager is not running and holds the four default tasks |
| Scheduler.SchedulerManager.Start | server/schedulers/scheduler_manager.py:28-43 | the manager runs and its tasks are unchanged |
| Scheduler.SchedulerManager.Stop | server/schedulers/scheduler_manager.py:45-59 | the manager stops and its tasks are unchanged |
| Scheduler.SchedulerManager.IsRunning | server/schedulers/scheduler_manager.py:61-63 | running is reported exactly when the flag is set and the thread is alive |
| Scheduler.SchedulerManager.AddTask | server/schedulers/scheduler_manager.py:65-80 | the task is registered, replacing any task of that name, with no run, no error and no last run |
| Scheduler.SchedulerManager.RemoveTask | server/schedulers/scheduler_manager.py:82-92 | the task is gone and every other task kept; a missing name changes nothing |
| Scheduler.SchedulerManager.GetTasks | server/schedulers/scheduler_manager.py:94-111 | answers the report of the registered tasks |
| Scheduler.SchedulerManager.Tick | server/schedulers/scheduler_manager.py:117-144 | one pass of the loop updates every task as TickAll specifies |
| Scheduler.SchedulerManager.ForceRunTask | server/schedulers/scheduler_manager.py:262-290 | the tasks and the answer are those ForceRun specifies |
| HistoricalMetrics.FirstNReads | server/utils/historical_metrics.py:69-88 | `LRANGE key 0 n-1` gives the newest `n` entries for a positive `n` and the whole list for `n = 0` |
| HistoricalMetrics.InRange | server/utils/historical_metrics.py:95-99 | the filter keeps at most the snapshots it is given |
| HistoricalMetrics.InRangeMembers | server/utils/historical_metrics.py:95-99 | a snapshot is kept exactly when it is stored and its time lies between the bounds, both included |
| HistoricalMetrics.TimeRangeSpec | server/utils/historical_metrics.py:90-107 | the answer is a permutation of the snapshots within the bounds, holds exactly those, and is sorted newest first by timestamp text |
| HistoricalMetrics.Trend | server/utils/historical_metrics.py:157-166 | at most one trend point per snapshot |
| HistoricalMetrics.TrendAppend | server/utils/historical_metrics.py:158 | the trend walks the snapshots oldest first: the points of older snapshots come first |
| HistoricalMetrics.TrendPointsCarryMetric | server/utils/historical_metrics.py:159-164 | every point is the timestamp, hour and value of a snapshot that carries the metric |
| HistoricalMetrics.TrendAllCarry | server/utils/historical_metrics.py:159 | when every snapshot carries the metric, there is one point per snapshot |
| HistoricalMetrics.SourcesOfMembers | server/utils/historical_metrics.py:127-132 | a source is counted exactly when some snapshot lists it |
| HistoricalMetrics.DailySummarySpec | server/utils/historical_metrics.py:109-150 | no snapshot in the day gives the empty summary; otherwise the data points are the snapshots of the day (both ends included), the unique source count is the size of the source set, and the date is kept |
| HistoricalMetrics.DashboardSpec | server/utils/historical_metrics.py:172-216 | the dashboard shows the newest 12 of the newest 24 snapshots, counts those 24, shows the newest 7 daily summaries, and takes the current metrics and newest and oldest timestamps from the ends of the 24 |
| HistoricalMetrics.HistoricalStore.constructor | server/utils/historical_metrics.py:16-24 | a new store holds no snapshots and no summaries |
| HistoricalMetrics.HistoricalStore.RecordHourlySnapshot | server/utils/historical_metrics.py:28-47 | the snapshot heads the hourly list, which keeps at most 720 entries; the daily list is unchanged |
| HistoricalMetrics.HistoricalStore.RecordDailySummary | server/utils/historical_metrics.py:49-67 | the summary heads the daily list, which keeps at most 30 entries; the hourly list is unchanged |
| HistoricalMetrics.HistoricalStore.GetMetricsForTimerange | server/utils/historical_metrics.py:90-107 | the filtering loop and the sort answer the time range TimeRangeSpec describes |
| HistoricalMetrics.HistoricalStore.GetTrendData | server/utils/historical_metrics.py:152-170 | the reversed loop answers the trend of the newest `hours` snapshots |
| LogServer.OkCount | server/log_server.py:132-140 | the number of healthy components is at most the number checked |
| LogServer.OkCountFour | server/log_server.py:132-140 | four checks count one for each that passes |
| LogServer.HealthCheck | server/log_server.py:119-156 | the score is 25 per healthy component, the status word and HTTP code follow from it, and each component reports `ok` or `error` by its own check |
| LogServer.HealthScoreLevels | server/log_server.py:131-156 | the score is 0, 25, 50, 75 or 100; healthy exactly from three components, degraded exactly at two, and code 200 exactly when healthy |
| LogServer.HealthMonotone | server/log_server.py:131-140 | more healthy components never lower the score |
| LogServer.ErrorCategory | server/log_server.py:373-385 | every message falls in one of the five categories or `other_errors` |
| LogServer.ErrorCategoryPriority | server/log_server.py:371-385 | the first keyword pair found, in the listed order, decides the category, and `other_errors` is answered exactly when no keyword occurs |
| LogServer.CategoriesOf | server/log_server.py:370-385 | one category per error log, in order |
| LogServer.CategoriesStep | server/log_server.py:370-389 | the count loop adds one to the category of each log in turn |
| LogServer.CommonErrorsSpec | server/log_server.py:363-392 | counts are sorted largest first, add up to the number of logs, each is the number of logs in its category, and every log's category is listed |
| LogServer.CommonErrorsTally | server/log_server.py:363-392 | the answer is the insertion-ordered tally sorted stably by count |
| LogServer.AnalyzeCommonErrors | server/log_server.py:363-396 | the counting loop and the sort answer the common errors CommonErrorsSpec describes |
| LogServer.HostLogsDispatch | server/log_server.py:242-275 | at most `limit` entries, all from the window read; `lastrun` keeps exactly the run-related ones, `errors` exactly the ERROR ones, and every other type the whole window |
| LogServer.TroubleshootSpec | server/log_server.py:282-313 | status is `healthy` exactly when no error log is found; at most 100 logs and 20 errors are read and 10 and 5 shown; the error counts add up to the errors read; no activity exactly when no log is read |
| LogServer.ErrorLogsFetched | server/log_server.py:292 | the error read answers at most `limit` entries, all at level ERROR |
| LogServer.ComponentSeen | server/log_server.py:330-346 | one observation per log: its component, whether it is an error, and its timestamp |
| LogServer.ListComponents | server/log_server.py:320-357 | the loop builds the component table of the 200 newest logs, and the component set is the table's key set |
| LogServer.ListComponentsSpec | server/log_server.py:320-357 | at most 200 logs are read; a component is listed exactly when some log has it; its log count is its number of logs, its error count its ERROR logs (never more), and its last activity the first timestamp seen; the counts add up to the logs read |
| Dashboard.IdFound | dashboard/dashboard_app.py:395-406 | an id is a workflow exactly when some result carries it, and an id no result carries has no steps |
| Dashboard.AddEntryKey | dashboard/dashboard_app.py:399-419 | one more result keeps each workflow equal to the steps, start time and `in_progress` status its results give |
| Dashboard.RefreshIdsLast | dashboard/dashboard_app.py:397-406 | one more result with an id counts that id once more in first-seen order |
| Dashboard.WorkflowsSpec | dashboard/dashboard_app.py:391-421 | the workflows are keyed by the distinct refresh ids in first-seen order, each with the steps, start time and status its results give |
| Dashboard.RefreshIdsNonEmpty | dashboard/dashboard_app.py:399 | only truthy (non-empty) refresh ids make workflows |
| Dashboard.ProcessWorkflowData | dashboard/dashboard_app.py:391-421 | the loop over results answers the workflow list WorkflowsSpec describes |
| Dashboard.WorkflowDataEntries | dashboard/dashboard_app.py:391-421 | each workflow has an id some result carries, status `in_progress`, the steps of its id's results and the timestamp of its first result |
| Dashboard.WorkflowDataOrder | dashboard/dashboard_app.py:391-421 | the workflows come in first-seen order of their ids, each id exactly once |
| Dashboard.StepsForNonZero | dashboard/dashboard_app.py:412 | no workflow step has step number 0 |
| Dashboard.ByStepTotal | dashboard/dashboard_app.py:449 | the step order is total, so the sort is defined on every list |
| Dashboard.StepRowsSpec | dashboard/dashboard_app.py:435-447 | every result with a truthy step number gives a step row, and no row has step 0 |
| Dashboard.ProcessWorkflowStepsSpec | dashboard/dashboard_app.py:431-449 | the rows are sorted ascending by step, are a permutation of the collected rows, contain no step 0 and contain every stepped result's row |
| Dashboard.CountStatus | dashboard/dashboard_app.py:461-466 | a status count is at most the number of steps |
| Dashboard.CountStatusPositive | dashboard/dashboard_app.py:461-466 | a status is counted exactly when some step has it |
| Dashboard.WorkflowStatusSpec | dashboard/dashboard_app.py:456-469 | `unknown` exactly for no steps, `failed` exactly when some step failed |
| Dashboard.WorkflowCompleted | dashboard/dashboard_app.py:465-469 | `completed` exactly when no step failed and at least eight completed, so never with fewer than eight steps |
| Dashboard.CountStatusSort | dashboard/dashboard_app.py:449 | sorting keeps the count of every status |
| Dashboard.StatusIgnoresOrder | dashboard/dashboard_app.py:449-469 | the workflow status of the sorted steps is that of the steps as collected |
| Dashboard.BroadcastRooms | dashboard/dashboard_app.py:349-354 | an update goes to exactly four rooms |
| Dashboard.RoomInjective | dashboard/dashboard_app.py:320 | for sources without `_`, a room name gives back its source and level |
| Dashboard.SubscriberReceives | dashboard/dashboard_app.py:312-357 | a subscriber to `all` or the update's source, and `all` or its level, gets the update; when neither source holds `_`, only such subscribers do |
| Dashboard.SubscriptionRoomReceives | dashboard/dashboard_app.py:312-321 | the room a subscription joins, with source and level defaulting to `all`, is among an update's broadcast rooms when each is `all` or the update's own, and for source names without `_` only then |
| Dashboard.RoomsCanCollide | dashboard/dashboard_app.py:349-354 | as written, a subscriber to source `auto`, level `x_info` gets the updates of source `auto_x`, level `info` |
| Dashboard.IntendedBroadcastRooms | dashboard/dashboard_app.py:349-354 | with rooms kept as source and level pairs, an update still goes to four rooms |
| Dashboard.IntendedSubscriberReceives | dashboard/dashboard_app.py:312-357 | with rooms as pairs, a subscriber gets an update exactly when its source and level are each `all` or the update's |
| Dashboard.LogsEndpoint | dashboard/dashboard_app.py:145-151 | the endpoint is a log-server path that ends with the host |
| Dashboard.LogsRequestSpec | dashboard/dashboard_app.py:145-164 | a component gives `/logger/<component>/<host>`, else an application gives `/logger/host=<host>`, else `/logger/search/<host>`; limit and time are always sent and each optional parameter exactly when given |
| Dashboard.SearchRequestSpec | dashboard/dashboard_app.py:182-208 | the request is refused with 400 exactly when query, pattern and refresh id are all empty; otherwise it goes to `/logger/search/<host>` with each optional parameter exactly when given |
| TestApi.LineLogsSpec | test_api.py:62-73 | each record comes from one line of the file, stripped and not blank, with application `unknown`, component `general`, level `INFO`, the clock reading and the file's path; there are never more records than lines |
| TestApi.LineLogsStep | test_api.py:62-73 | taking one more line adds exactly one record when that line is not blank once stripped, and none otherwise |
| TestApi.FileLogsBound | test_api.py:59-62 | one file contributes at most `limit` records (`lines[-limit:]`) |
| TestApi.CollectedShape | test_api.py:56-73 | every collected record belongs to the host, has a non-empty message, component `general`, level `INFO` and the clock reading as timestamp |
| TestApi.RecentLogsSpec | test_api.py:48-77 | `read_recent_logs` returns a suffix of the collected records of length at most `limit` (all of them when `limit` is 0), each of the host with a non-empty message |
| TestApi.ReadFile | test_api.py:56-75 | reading one file appends exactly that file's contribution to the records so far |
| TestApi.CollectedStep | test_api.py:56-75 | one more file extends the collected records by that file's contribution, in directory order |
| TestApi.ReadRecentLogs | test_api.py:48-77 | the loop over the files returns exactly the recent records the function `RecentLogs` describes |
| TestApi.MentionFilters | test_api.py:101-106 | the application and component filters keep exactly the records whose message contains each value asked for, ignoring case, and add nothing |
| TestApi.FilterChainSpec | test_api.py:101-114 | the `/logger/host=<host>` chain keeps exactly the records that pass the application, component and `errors`/`lastrun` keyword filters, and nothing else |
| TestApi.TroubleshootSpec | test_api.py:132-167 | status is `healthy` exactly when there are no error records; errors at most total at most 100; at most 10 recent and 5 error records; every error record mentions the application and an error keyword; no records exactly when last activity is `No recent activity` |
| TestApi.DiagnoseSpec | test_api.py:140-166 | of any records read: `healthy` exactly when none of the matching records has an error keyword; errors at most matches at most records read; at most 10 recent and 5 error records, every error record mentioning the application and an error keyword; no matches exactly when last activity is `No recent activity` and no recent record is shown |
| TestApi.ClassifySpec | test_api.py:186-204 | a message is `general` exactly when no pattern of any component occurs in it lower-cased; otherwise it is the first component in dict order with a matching pattern |
| TestApi.ComponentSeen | test_api.py:197-217 | each record yields its classified component, whether it has `error`, `exception` or `failed`, and its timestamp |
| TestApi.ListComponents | test_api.py:175-229 | the component table is the one built from the 200 most recent application records, and the component set is its keys |
| TestApi.ListComponentsSpec | test_api.py:179-227 | at most 200 records are classified; the components are exactly those seen; each log count is the component's number of records, each error count its number of error records and never more than the log count; the log counts add up to the records |
| TestApi.ListComponentsActivity | test_api.py:219-220 | a component's last activity is the timestamp of the first record filed under it |
| MemoryMonitor.WarningThresholds | scripts/memory_monitor.py:33-35 | every configured service has a threshold, 80% of its limit |
| MemoryMonitor.ThresholdsBelowLimits | scripts/memory_monitor.py:27-35 | the thresholds are 409.6 MB and 204.8 MB, each below its limit |
| MemoryMonitor.Decide | scripts/memory_monitor.py:117-143 | the service is reported missing exactly when no process was found, and it counts as restarted only when `systemctl restart` succeeded |
| MemoryMonitor.RestartAttemptedIff | scripts/memory_monitor.py:123-133 | a restart is attempted exactly when usage is above the limit, the last restart is more than 1200 s old and fewer than 3 are counted |
| MemoryMonitor.WarnedIff | scripts/memory_monitor.py:138-140 | the warning fires exactly for usage within the limit and above the threshold |
| MemoryMonitor.InitialState | scripts/memory_monitor.py:107-108 | both tables start with every service at 0 |
| MemoryMonitor.CheckKeepsValid | scripts/memory_monitor.py:119-136 | a check keeps both tables over the configured services with counts at most 3, and changes nothing unless a restart succeeded |
| MemoryMonitor.NoRestartWithin20Minutes | scripts/memory_monitor.py:127-133 | after a restart the same service is not restarted again within 1200 s, whatever it reads |
| MemoryMonitor.Reset | scripts/memory_monitor.py:146-149 | a count goes back to 0 exactly when its last restart is more than 3600 s old; restart times stay the same |
| MemoryMonitor.ThirdRestartBlocks | scripts/memory_monitor.py:126-149 | with 3 restarts counted no further restart is attempted, until the hourly reset clears the count |
| MemoryMonitor.SystemSeverity | scripts/memory_monitor.py:92-95 | critical exactly above 90%, plain info exactly at or below 80% |
| MemoryMonitor.SeverityMonotone | scripts/memory_monitor.py:91-95 | more memory in use never lowers the alert level |
| MemoryMonitor.Monitor.constructor | scripts/memory_monitor.py:107-108 | the tables start at the initial state |
| MemoryMonitor.Monitor.CheckService | scripts/memory_monitor.py:116-143 | one pass for a service updates the tables and reports the action exactly as the check function does, and keeps them valid |
| MemoryMonitor.Monitor.ResetCounts | scripts/memory_monitor.py:145-149 | the reset loop leaves the tables exactly as the reset function describes |
| ComponentStats.Components | server/log_server.py:330-332 | one component per log, in order |
| ComponentStats.Unseen | server/log_server.py:330-346 | a component no log is filed under has no errors and no timestamp |
| ComponentStats.RecordKey | server/log_server.py:334-346 | one pass keeps a component's error count and first timestamp equal to those of the logs so far |
| ComponentStats.TableSpec | server/log_server.py:327-346 | the table agrees with a counter of the components: same keys in first-seen order, each log count the number of logs, each error count the number of error logs, each last activity the first timestamp |
| ComponentStats.ErrorsAtMostLogs | server/log_server.py:341-343 | a component never counts more errors than logs |
| ComponentStats.TableKeys | server/log_server.py:327-339 | the keys are distinct, listed once each, and are exactly the components some log is filed under |
| ComponentStats.ComponentSeen | server/log_server.py:330-332 | a component is listed exactly when some log is filed under it |
| ComponentStats.TableCounts | server/log_server.py:341-343 | each log count is the number of the component's logs and each error count the number of its error logs, at most its log count |
| ComponentStats.TableTotal | server/log_server.py:341 | the log counts add up to the number of logs |
| ComponentStats.FirstLogStamp | server/log_server.py:345-346 | when every log has a timestamp, a component's last activity is the timestamp of its first log |
| ComponentStats.FirstStampIsFirstLog | server/log_server.py:345-346 | when every log has a timestamp, the first stamped log of a component is its first log |
| ComponentStats.Collect | server/log_server.py:327-346 | the loop builds exactly the table the function `TableOf` describes |
| Tally.Occurrences | server/log_server.py:387-389 | a key is counted at most as often as there are keys, and at least once exactly when it occurs |
| Tally.Increment | server/log_server.py:387-389 | `if k not in d: d[k] = 0; d[k] += 1` adds a new key at the end with count 1 or adds one to an existing key |
| Tally.TallySpec | server/log_server.py:369-389 | the counter lists each key seen exactly once and nothing else, with its number of occurrences |
| Tally.TallyFirstSeen | server/log_server.py:387-388 | the keys are listed in the order of their first occurrence |
| Tally.TallyTotal | server/log_server.py:369-389 | the counts add up to the number of keys counted |
| Tally.SumCountsSort | server/log_server.py:392 | sorting by count keeps the total |
| Tally.ItemsMembers | server/log_server.py:392 | the items are exactly the keys with their numbers of occurrences |
| Tally.MostCommonSpec | server/log_server.py:392 | the sorted items run from the largest count down, hold each key once with its number of occurrences, and add up to the number of keys |
| Store.ZAddContents | server/log_processor_redis.py:311 | after `ZADD` the set holds the new entry and every other member's old entry, and nothing else |
| Store.ZAddValid | server/log_processor_redis.py:311 | `ZADD` keeps a sorted set ranked by score with distinct members |
| Store.KeepTop | server/log_processor_redis.py:313 | `ZREMRANGEBYRANK key 0 -(k+1)` leaves the whole set when it has at most `k` entries and its `k` highest-ranked entries otherwise |
| Store.KeepTopEvictsLowest | server/log_processor_redis.py:313 | trimming leaves exactly `min(n, k)` entries, and no evicted entry scores above one that stays |
| Store.CappedPut | server/log_processor_redis.py:311-313 | an add followed by a trim keeps the set valid and within its cap, invents nothing, and either keeps the new entry or is full of entries scoring at least as high |
| Store.CapHolds | server/log_processor_redis.py:306-345 | a capped set that no later add in the same call touches ends within its cap |
| Store.EvictedThenReadded | server/log_processor_redis.py:306-345 | a full capped set that a first add trims and only a last, uncapped add names again ends one over its cap when the new entry scores lowest |
| Store.ZRevRangeByScore | server/redis_log_api.py:86-90 | at most `count` members, each with an entry whose score is in range |
| Store.ZRevRangeByScoreAll | server/redis_log_api.py:86-90 | a query that returns fewer than its count, or has none, returns every member in range |
| Store.PushCapped | server/processors/log_processor.py:201-202 | `LPUSH` then `LTRIM 0 n-1` puts the new item first and keeps the `n` newest items |
| Store.LRangeHead | server/processors/log_processor.py:299 | `LRANGE 0 n-1` is the first `n` items, and the whole list when `n` is 0 |
| Store.HIncrBy | server/log_processor_redis.py:355-356 | the field goes up by the delta from 0 when missing, and every other field stays the same |
| Store.PrefixPattern | server/redis_log_api.py:138 | a pattern `prefix*` matches exactly the keys that start with the prefix |

## Left out

- Store.GlobMatch: only `*` is a wildcard. Redis's `?`, `[...]` and `\` escapes are not modelled, so a host, application or component name holding one of those characters matches differently in Redis.
- RedisQueries.RedisLogApi.GetStats: the Redis client decodes responses (server/redis_log_api.py:25-29), so the single-hash branch answers each counter as the decimal text Redis stores, while the aggregate branch turns them into integers with `int(value)`. The model answers the integers in both branches.
- Store.ZAdd: orders equal scores by insertion, while Redis orders them by member bytes. With ties this decides which entries `ZREMRANGEBYRANK` evicts and the order `ZREVRANGE` returns within one second. The proved properties (caps, contents, every evicted entry scoring at most as high as every kept one) hold under either order.
- RedisIngest.FileHash: md5 is modelled as the identity on its pre-image text, which makes the hash collision-free.
- Text.Lower: only ASCII case is modelled. The same holds for `IsSpace`, `\d`, `\w` and `re.IGNORECASE`. Unicode case folding and Unicode whitespace are not.
- Redis errors are not modelled. That covers connection failures and `WRONGTYPE`, and the exceptions, HTTP 500 answers and `except` branches they lead to. Each Redis type has its own map, so a key cannot hold two types.
- `int()` parse errors are not modelled. A non-numeric `limit`, `offset` or `hours` query parameter makes the Python route answer 500; the model takes the parameter as an integer.
- RedisIngest.ProcessTask: leaves out the `TypeError` raised when `processed_at` and the file's modification time differ in naive/aware-ness. The clock's parse result stands for both readings. A `processed_at` that does not parse is modelled and leaves the store unchanged.
- HistoricalMetrics.CalculateDailySummary: returns a summary even where Python raises and returns `{}` because `ingestion_rate`, `error_rate` or `disk_usage` is not numeric; those averages are floats and are left out. `SumOf` gives `None` where Python would sum a float `total_logs_today`.
- HistoricalMetrics.DashboardData: returns the dashboard even where Python's 24-hour averages (server/utils/historical_metrics.py:190-191) raise on a non-numeric `ingestion_rate` or `error_rate` and the method returns `{}` (lines 218-220); the averages themselves are floats and are left out.
- FileMonitor.LogFileHandler: positions count characters, while `tell()` gives byte offsets of the encoded file. A lone `'\r'`, which Python's universal newlines treat as a line break, is not a line break in the model.
- TestApi.FileLogs: splits a file with `FileMonitor.ReadLines`, so a lone `'\r'` is not a line break, while `readlines()` at test_api.py:59-60 reads with universal newlines.
- TestApi.ReadFile: reads through `FileLogs`' split, with the same lone-`'\r'` difference.
- TestApi.ReadRecentLogs: reads every file through `FileLogs`' split, with the same lone-`'\r'` difference.
- RedisIngest.ParseLogLine: one clock reading stands for the per-line readings of `datetime.now()` at server/log_processor_redis.py:252 (the fallback timestamp) and :281 (`indexed_at`), and for the later reading at :121 (the file's `processed_at`). In the source, fallback-stamped lines get rising scores and `processed_at` comes after every `indexed_at`; in the model they are all equal. The same single reading is used by `RedisIngest.RecordFile`, `RedisIngest.MetaFields`, `RedisProcessor.RedisLogProcessor.ParseLogLine` and `RedisProcessor.RedisLogProcessor.ParseAndStoreFile`.
- TestApi.ReadRecentLogs: uses one clock reading for every record, while test_api.py:66 reads the clock once per record.
- Time zones are fixed to one local zone. pytz localisation and daylight-saving changes are not modelled, and neither are `datetime.fromisoformat` and `strptime`: parsing is a parameter (`Clock.parse`) that answers a time or `None`.
- Threads and loops that never end are reduced to one step each. That covers the watchdog observer, the worker threads, `start_workers`, `main()` and the `while True` loops of the scheduler and the memory monitor; blocking queue waits and `time.sleep` are left out too. The model covers one queue step, one scheduler tick and one monitor pass.
- Clocks, directory walks (`rglob`, `iterdir`), file contents and `stat` results are parameters. `get_file_count`, `get_status` and `scan_log_files` (log_api.py:358-379, test_api.py:25-46) are pure I/O and are not modelled.
- Key expiry over time is not modelled. `EXPIRE` records the TTL, and a non-positive `EXPIRE`, which deletes the key in Redis, is not modelled either.
- JSON `null` and a missing field are one case (`None`) in the model.
- Floating point is left out: averages, rounding, `calculate_success_rate`, `calculate_total_duration`, the `duration_seconds` parsing of log_api.py and the `{:.2f}` formatting. Durations reach the message builders as text.
- Prometheus metrics, `logger` calls, `print`, Flask and Socket.IO plumbing, and the dashboard's outbound HTTP requests are left out. The dashboard model stops at the URL and parameters it would request.
- Scheduler.SchedulerManager: `cleanup_old_data` only returns `True` and is not modelled. The early returns taken when no Redis client is configured are not modelled either.
- MemoryMonitor: memory is given as a real number of megabytes; psutil's process lookup and `systemctl restart` are parameters.
- TestApi.ReadRecentLogs: `limit=0` keeps every line (`lines[-0:]`), and the model follows that. Decoding with `errors='ignore'` is not modelled: file contents are already text.
- LogServer.TroubleshootSpec: the `hours` parameter of `troubleshoot_application` (server/log_server.py:286) is read but never used, so the model leaves it out.
- A host directory that does not exist is treated as a directory with no files.
- RedisIngest.StepCapHolds: also excludes step name `all`. Its step key is then the refresh-wide key, which the later trim holds to 5000, not 1000 (see Findings).
- log_api.py's `SimpleHistoricalMetrics` (log_api.py:56-110) is not modelled separately. Its capped hourly list is the one `HistoricalMetrics.HistoricalStore` models.
- server/utils/redis_client.py, metrics_exporter.py, loguru_config.py and the gunicorn and deployment scripts are not part of this model.

## Findings

| source | as written | input that shows it | evidently intended | confidence | as-written member | corrected member |
|---|---|---|---|---|---|---|
| log_api.py:701-714 | `get_host_logs` asks `read_logs_with_filters` for `limit + offset` entries and also passes `offset`, which is skipped a second time inside (log_api.py:617-629) | limit 10, offset 10, 30 matching lines: 20 entries come back, not 10 | at most `limit` entries after the first `offset` | not executed | LogApi.HostLogsCanOverrun | LogApi.HostLogsPagedSpec |
| log_api.py:584 | `'starting.*workflow' in line.lower()` tests for the literal text `starting.*workflow` | `[Refresh-1] Starting IPTV refresh workflow (trigger: cron, steps: 8)`: no status is read | the regex search `starting.*workflow`, giving `workflow_started` | not executed | SportsLogging.WorkflowStartUnread | SportsLogging.WorkflowStartRead |
| server/redis_log_api.py:47-52 | with app and component, the base key `log:{host}:{app}:{component}:*` becomes the pattern `logs:{host}:{app}:{component}:*`, which needs a `:` after the component | host `h`, app `a`, component `c`: the primary set `logs:h:a:c` is never scanned | the pattern also matches the component's primary set | not executed | RedisQueries.ComponentQuerySkipsPrimary | RedisQueries.IntendedComponentQueryReadsPrimary |
| dashboard/dashboard_app.py:349-354 | rooms are `logs_{source}_{level}`, joined by `_` with no escaping | source `auto_x`, level `info` reaches the subscriber of source `auto`, level `x_info` | a room per (source, level) pair, so a subscriber receives exactly its own pair | not executed | Dashboard.RoomsCanCollide | Dashboard.IntendedSubscriberReceives |
| server/log_processor_redis.py:306-345 | the step set is trimmed to 1000, then the legacy `:refresh:` set, which is never trimmed, is written | path `.../iptv-orchestrator/refresh/refresh.log`: both ids are `refresh`, the step key equals the legacy key and holds 1001 entries | the step set holds at most 1000 entries | not executed | RedisIngest.StepCapOverflows | RedisIngest.StepCapHolds |
