/** The sports-scheduler's step logger: the messages the IPTV orchestrator
    logs for each refresh, the component logger names and the handler files.
    Each builder is a value: the level it logs at and the message text. */
module SportsLogging {
  import opened Wrappers
  import opened Text
  import opened Paths
  import LineTags
  import LogApi
  import RedisIngest
  import opened Regex

  /** `logger.info` or `logger.error`. */
  datatype Level = Info | Error

  /** One logger call. */
  datatype Emit = Emit(level: Level, message: string)

  /** The `results` argument. Every falsy value (None, an empty dict, 0, "")
      is `NoResults`; a dict maps its keys to their `str()` text; any other
      truthy value is given by its `str()` text. */
  datatype Results = NoResults | Metrics(counts: map<string, string>) | Other(text: string)

  /** `results` is truthy. */
  predicate Truthy(r: Results) {
    match r
    case NoResults => false
    case Metrics(m) => |m| > 0
    case Other(_) => true
  }

  /** `if self.refresh_id: message = f"[Refresh-{id}] {message}"`; the id is
      given as its text, the empty text standing for every falsy id. */
  function WithRefresh(refreshId: string, message: string): string {
    if refreshId != "" then "[Refresh-" + refreshId + "] " + message else message
  }

  /** ` - {details}` when details is truthy (not empty). */
  function DetailsSuffix(details: string): string {
    if details != "" then " - " + details else ""
  }

  /** `log_step_start`. */
  function StepStart(refreshId: string, step: nat, name: string, details: string): Emit {
    Emit(Info, WithRefresh(refreshId, "Step " + NatToString(step) + "/8:" + StartTail(name, details)))
  }

  /** What follows `Step n/8:` in `log_step_start`: a space, the name, the details. */
  function StartTail(name: string, details: string): string {
    " " + name + DetailsSuffix(details)
  }

  /** `log_step_progress`. */
  function StepProgress(refreshId: string, step: nat, progress: string, details: string): Emit {
    Emit(Info, WithRefresh(refreshId, "Step " + NatToString(step) + " Progress: " + progress + DetailsSuffix(details)))
  }

  /** The metric the dict `results` of `log_step_complete` reports for `key`, if present. */
  function MetricPart(m: map<string, string>, key: string, what: string): string {
    if key in m then " - " + m[key] + " " + what else ""
  }

  /** The results suffix of `log_step_complete`: channels, events and
      recordings, in that order, for a dict; ` - {results}` otherwise. */
  function CompleteResults(r: Results): string {
    if !Truthy(r) then ""
    else match r
      case Metrics(m) =>
        MetricPart(m, "channels_processed", "channels processed")
        + MetricPart(m, "events_processed", "events processed")
        + MetricPart(m, "recordings_scheduled", "recordings scheduled")
      case Other(t) => " - " + t
      case NoResults => ""
  }

  /** `log_step_complete`. The duration is `None` when falsy, else its
      `{duration:.2f}` text. */
  function StepComplete(refreshId: string, step: nat, name: string, duration: Option<string>, results: Results): Emit {
    Emit(Info, WithRefresh(refreshId,
      "Step " + NatToString(step) + ("/8: " + name + " " + "completed successfully" + CompleteTail(duration, results))))
  }

  /** What follows `completed successfully`: the timing, then the results. */
  function CompleteTail(duration: Option<string>, results: Results): string {
    StepTiming(duration) + CompleteResults(results)
  }

  /** ` in {duration:.2f} seconds` when the duration is truthy. */
  function StepTiming(duration: Option<string>): string {
    match duration
    case None => ""
    case Some(d) => " in " + d + " seconds"
  }

  /** `log_step_error`. */
  function StepError(refreshId: string, step: nat, name: string, error: string, details: string): Emit {
    Emit(Error, WithRefresh(refreshId,
      "Step " + NatToString(step) + "/8: " + name + " " + "failed" + ErrorTail(error, details)))
  }

  /** What follows `failed`: ` - `, the error, then the details. */
  function ErrorTail(error: string, details: string): string {
    " - " + error + DetailsSuffix(details)
  }

  /** `log_workflow_start`. */
  function WorkflowStart(refreshId: string, trigger: string, totalSteps: int): Emit {
    Emit(Info, WithRefresh(refreshId,
      "Starting IPTV refresh workflow" + StartRest(trigger, totalSteps)))
  }

  /** What follows the opening words of `log_workflow_start`. */
  function StartRest(trigger: string, totalSteps: int): string {
    " (trigger: " + trigger + ", steps: " + IntToString(totalSteps) + ")"
  }

  /** The summary parts of `log_workflow_complete`, in order. */
  function SummaryParts(r: Results): seq<string> {
    match r
    case Metrics(m) =>
      (if "total_channels" in m then [m["total_channels"] + " channels"] else [])
      + (if "total_events" in m then [m["total_events"] + " events"] else [])
      + (if "total_recordings" in m then [m["total_recordings"] + " recordings"] else [])
    case _ => []
  }

  /** `log_workflow_complete`; `duration` is its `{duration:.2f}` text. */
  function WorkflowComplete(refreshId: string, duration: string, totalSteps: int, results: Results): Emit {
    Emit(Info, WithRefresh(refreshId, "IPTV refresh workflow " + "completed successfully" + CompleteTiming(duration, totalSteps, results)))
  }

  /** The duration, the step count and the results summary of a completed workflow. */
  function CompleteTiming(duration: string, totalSteps: int, results: Results): string {
    var parts := SummaryParts(results);
    var summary := if parts != [] then " - " + Join(parts, ", ") else "";
    " in " + duration + " seconds (" + IntToString(totalSteps) + " steps)" + summary
  }

  /** `log_workflow_error`; `stepFailed` 0 stands for every falsy step. */
  function WorkflowError(refreshId: string, error: string, duration: Option<string>, stepFailed: int): Emit {
    Emit(Error, WithRefresh(refreshId, "IPTV refresh workflow failed - " + error + FailedAt(stepFailed) + ErrorTiming(duration)))
  }

  /** ` (failed at step k)` when the failed step is truthy. */
  function FailedAt(stepFailed: int): string {
    if stepFailed != 0 then " (failed at step " + IntToString(stepFailed) + ")" else ""
  }

  /** ` after {duration:.2f} seconds` when the duration is truthy. */
  function ErrorTiming(duration: Option<string>): string {
    match duration
    case None => ""
    case Some(d) => " after " + d + " seconds"
  }

  // ---------------------------------------------------------------- loggers and handler files

  /** The components `setup_sports_scheduler_logging` gives a handler. */
  const Components: seq<string> :=
    ["iptv-orchestrator", "epg-processor", "channel-scanner", "playlist-generator", "scheduler", "api", "database"]

  /** `log_dir`'s default. */
  const DefaultLogDir: Path := Path("/", ["var", "log", "centralized", "ssdev", "sports-scheduler"])

  /** `get_component_logger`'s name: `sports_scheduler.` and the name with every `-` made `_`. */
  function ComponentLoggerName(component: string): (name: string)
    ensures |name| == 17 + |component| && name[..17] == "sports_scheduler."
    ensures '-' !in name[17..]
    ensures forall k :: 0 <= k < |component| && component[k] != '-' ==> name[17 + k] == component[k]
  {
    var r := ReplaceChar(component, '-', '_');
    assert ("sports_scheduler." + r)[17..] == r;
    "sports_scheduler." + r
  }

  /** `CentralizedLogHandler.log_file`: `{log_dir}/{component}.log`. */
  function HandlerFile(logDir: Path, component: string): Path {
    Child(logDir, component + ".log")
  }

  // ---------------------------------------------------------------- text facts

  /** Lower-casing distributes over concatenation. */
  lemma LowerConcat(a: string, b: string)
    ensures Lower(a + b) == Lower(a) + Lower(b)
  {
  }

  /** A text lacking one of a word's characters does not contain the word. */
  lemma AbsentChar(s: string, w: string, k: nat)
    requires k < |w| && w[k] !in s
    ensures !Contains(s, w)
  {
    forall i | 0 <= i <= |s| - |w| ensures !OccursAt(s, w, i) {
      assert s[i..i + |w|][k] == s[i + k];
    }
  }

  /** A text that does not contain a word does not contain a longer word starting with it. */
  lemma NotContainsExtended(s: string, w: string, longer: string)
    requires !Contains(s, w) && |w| <= |longer| && longer[..|w|] == w
    ensures !Contains(s, longer)
  {
    forall i | 0 <= i <= |s| - |longer| ensures !OccursAt(s, longer, i) {
      assert !OccursAt(s, w, i);
      assert s[i..i + |w|] == s[i..i + |longer|][..|w|];
    }
  }

  /** A word of lower-case letters and spaces found in a text is found in its lower-cased text. */
  lemma ContainsLowered(s: string, w: string, i: nat)
    requires OccursAt(s, w, i)
    requires forall k :: 0 <= k < |w| ==> 'a' <= w[k] <= 'z' || w[k] == ' '
    ensures Contains(Lower(s), w)
  {
    forall k | 0 <= k < |w| ensures Lower(s)[i + k] == w[k] {
      assert s[i + k] == s[i..i + |w|][k];
    }
    assert Lower(s)[i..i + |w|] == w;
    assert OccursAt(Lower(s), w, i);
  }

  // ---------------------------------------------------------------- the tags of a step message

  /** `[Refresh-r] Step n`: the text every step message of a refresh starts with. */
  function StepHead(refreshId: string, step: nat): string {
    "[Refresh-" + refreshId + "] Step " + NatToString(step)
  }

  /** A step message of a refresh is its head and the rest of the message. */
  lemma StepText(refreshId: string, step: nat, rest: string)
    requires refreshId != ""
    ensures WithRefresh(refreshId, "Step " + NatToString(step) + rest) == StepHead(refreshId, step) + rest
  {
  }

  /** The characters of a step head before the step digits, and where the digits start. */
  lemma StepHeadChars(refreshId: string, step: nat)
    requires AllDigits(refreshId)
    ensures var h := StepHead(refreshId, step); var p := |refreshId| + 11;
      |h| == p + 5 + |NatToString(step)| &&
      h[..9] == "[Refresh-" && h[9..9 + |refreshId|] == refreshId &&
      h[p - 2..p + 5] == "] Step " && h[p + 5..] == NatToString(step)
  {
  }

  /** No character before the fourth of `Step` lower-cases to `p`, so no
      `step` starts before it. */
  lemma NoStepBefore(refreshId: string, step: nat, rest: string)
    requires AllDigits(refreshId)
    ensures var m := StepHead(refreshId, step) + rest;
      forall i :: 0 <= i < |refreshId| + 11 ==> LineTags.StepAt(m, i).None?
  {
    var m := StepHead(refreshId, step) + rest;
    var p := |refreshId| + 11;
    StepHeadChars(refreshId, step);
    forall k | 0 <= k < p + 3 ensures LowerChar(m[k]) != 'p' {
      var h := StepHead(refreshId, step);
      assert m[k] == h[k];
      if k < 9 {
        assert h[k] == h[..9][k];
      } else if k < 9 + |refreshId| {
        assert h[k] == refreshId[k - 9];
      } else {
        assert h[k] == h[p - 2..p + 5][k - p + 2];
      }
    }
    forall i | 0 <= i < p ensures LineTags.StepAt(m, i).None? {
      if i + 4 <= |m| {
        assert Lower(m[i..i + 4])[3] == LowerChar(m[i + 3]);
      }
    }
  }

  /** `step\s*(\d+)` at `p`, where `Step`, one space and the digits `d` stand,
      captures `d`. */
  lemma StepAtOf(m: string, p: nat, d: string, rest: string)
    requires p + 4 <= |m| && m[p..p + 4] == "Step" && m[p + 4..] == " " + d + rest
    requires |d| >= 1 && AllDigits(d) && (rest == [] || !IsDigit(rest[0]))
    ensures LineTags.StepAt(m, p) == Some(d)
  {
    assert Lower(m[p..p + 4]) == "step";
    RunLengthExact(" " + d + rest, IsSpace, 1);
    assert m[p + 5..] == d + rest;
    RunLengthExact(d + rest, IsDigit, |d|);
    assert DigitRun(m[p + 5..]) == (d + rest)[..|d|] == d;
  }

  /** Where `Step` and the step digits stand in a step message. */
  lemma StepHeadLayout(refreshId: string, step: nat, rest: string)
    requires AllDigits(refreshId)
    ensures var m := StepHead(refreshId, step) + rest; var p := |refreshId| + 11;
      p + 4 <= |m| && m[p..p + 4] == "Step" && m[p + 4..] == " " + NatToString(step) + rest &&
      StartsWith(m, "[Refresh-" + refreshId + "]")
  {
    var m := StepHead(refreshId, step) + rest;
    var p := |refreshId| + 11;
    assert m == ("[Refresh-" + refreshId + "]") + (" " + ("Step" + (" " + NatToString(step) + rest)));
  }

  /** The leftmost step number of a step message is the step, and its refresh
      tag is the refresh id. */
  lemma StepTags(refreshId: string, step: nat, rest: string)
    requires |refreshId| >= 1 && AllDigits(refreshId)
    requires rest == [] || !IsDigit(rest[0])
    ensures LineTags.StepNumber(StepHead(refreshId, step) + rest) == Some(NatToString(step))
    ensures LineTags.RefreshTag(StepHead(refreshId, step) + rest) == Some(refreshId)
  {
    var m := StepHead(refreshId, step) + rest;
    var p := |refreshId| + 11;
    NoStepBefore(refreshId, step, rest);
    StepHeadLayout(refreshId, step, rest);
    StepAtOf(m, p, NatToString(step), rest);
    StepFound(m, p);
    RefreshAtStart(refreshId, m);
  }

  /** The metadata of a step message carries the step and the refresh id. */
  lemma StepMetadata(refreshId: string, step: nat, rest: string)
    requires |refreshId| >= 1 && AllDigits(refreshId)
    requires rest == [] || !IsDigit(rest[0])
    ensures LogApi.LineMetadata(StepHead(refreshId, step) + rest).stepNumber == Some(step)
    ensures LogApi.LineMetadata(StepHead(refreshId, step) + rest).refreshId == Some("Refresh-" + refreshId)
  {
    StepTags(refreshId, step, rest);
    ParseNatToString(step);
  }

  /** The leftmost step is the first position where `step` and digits stand. */
  lemma StepFound(m: string, p: nat)
    requires p <= |m| && LineTags.StepAt(m, p).Some?
    requires forall i :: 0 <= i < p ==> LineTags.StepAt(m, i).None?
    ensures LineTags.StepNumber(m) == LineTags.StepAt(m, p)
  {
  }

  /** A message that starts with `[Refresh-<digits>]` has those digits as its refresh tag. */
  lemma RefreshAtStart(refreshId: string, m: string)
    requires |refreshId| >= 1 && AllDigits(refreshId)
    requires StartsWith(m, "[Refresh-" + refreshId + "]")
    ensures LineTags.RefreshTag(m) == Some(refreshId)
  {
    LineTags.RefreshTagExact(m, refreshId, 0);
  }

  // ---------------------------------------------------------------- the status the log API reads

  /** A step head and its `/8` hold no character that lower-cases to `c` or `a`. */
  lemma HeadLacks(refreshId: string, step: nat)
    requires AllDigits(refreshId)
    ensures 'c' !in Lower(StepHead(refreshId, step) + "/8")
    ensures 'a' !in Lower(StepHead(refreshId, step) + "/8")
  {
    var h := StepHead(refreshId, step) + "/8";
    var d := NatToString(step);
    var p := |refreshId| + 11;
    StepHeadChars(refreshId, step);
    assert h[p + 5 + |d|..] == "/8";
    forall k | 0 <= k < |h| ensures LowerChar(h[k]) != 'c' && LowerChar(h[k]) != 'a' {
      if k < 9 {
        assert h[k] == h[..9][k];
      } else if k < 9 + |refreshId| {
        assert h[k] == refreshId[k - 9];
      } else if k < p + 5 {
        assert h[k] == h[p - 2..p + 5][k - p + 2];
      } else if k < p + 5 + |d| {
        assert h[k] == h[p + 5..][k - p - 5] == d[k - p - 5];
      } else {
        assert h[k] == h[p + 5 + |d|..][k - p - 5 - |d|];
      }
    }
  }

  /** The characters of `completed` and `failed` are letters. */
  predicate Letters(w: string) { forall k :: 0 <= k < |w| ==> 'a' <= w[k] <= 'z' }

  /** A word of letters found in neither part is not found in the two
      lower-cased parts joined by a separator without letters. */
  lemma NotInJoined(a: string, sep: string, b: string, w: string)
    requires |w| > 0 && Letters(w) && |sep| > 0 && forall k :: 0 <= k < |sep| ==> sep[k] in " :-"
    requires !Contains(Lower(a), w) && !Contains(Lower(b), w)
    ensures !Contains(Lower(a + sep + b), w)
  {
    LowerConcat(a + sep, b);
    LowerConcat(a, sep);
    assert Lower(sep) == sep;
    NotContainsAcrossSeparator(Lower(a), sep, Lower(b), w);
  }

  /** A step-start message is its head, `/8:` and the rest. */
  lemma StepStartText(refreshId: string, step: nat, name: string, details: string)
    requires refreshId != ""
    ensures StepStart(refreshId, step, name, details).message ==
      StepHead(refreshId, step) + ("/8:" + StartTail(name, details))
  {
    StepText(refreshId, step, "/8:" + StartTail(name, details));
  }

  /** A word of letters found nowhere in a head ending `/8`, the name or the
      details is found nowhere in the lower-cased head, `:` and start tail. */
  lemma NotInStepStart(head: string, name: string, details: string, w: string)
    requires |w| > 0 && Letters(w)
    requires !Contains(Lower(head + "/8"), w)
    requires !Contains(Lower(name), w) && !Contains(Lower(details), w)
    ensures !Contains(Lower(head + ("/8:" + StartTail(name, details))), w)
  {
    var a := head + "/8";
    NotInJoined(a, ": ", name, w);
    if details == "" {
      assert head + ("/8:" + StartTail(name, details)) == a + ": " + name;
    } else {
      assert head + ("/8:" + StartTail(name, details)) == (a + ": " + name) + " - " + details;
      NotInJoined(a + ": " + name, " - ", details, w);
    }
  }

  /** The metadata of a line whose tags and status are known. */
  lemma MetadataOf(m: string, refreshId: string, step: nat, status: Option<string>)
    requires LineTags.StepNumber(m) == Some(NatToString(step))
    requires LineTags.RefreshTag(m) == Some(refreshId)
    requires LogApi.StepStatus(m) == status
    ensures LogApi.LineMetadata(m) == LogApi.Metadata(Some(step), Some("Refresh-" + refreshId), status)
  {
    ParseNatToString(step);
  }

  /** The status rule for a line without `completed` or `failed` that has a `step N/8:`. */
  lemma StatusStarted(m: string)
    requires !Contains(Lower(m), "completed") && !Contains(Lower(m), "failed")
    requires Search(m, LogApi.StepOf8At, 0).Some?
    ensures LogApi.StepStatus(m) == Some("started")
  {
    var l := Lower(m);
    assert "completed successfully"[..9] == "completed";
    NotContainsExtended(l, "completed", "completed successfully");
    assert !Contains(l, "completed successfully");
  }

  /** `step\s*\d+/8:` matches a step message with its `/8:`. */
  lemma StepOf8Found(refreshId: string, step: nat, rest: string)
    requires |refreshId| >= 1 && AllDigits(refreshId)
    ensures Search(StepHead(refreshId, step) + ("/8:" + rest), LogApi.StepOf8At, 0).Some?
  {
    var m := StepHead(refreshId, step) + ("/8:" + rest);
    var p := StepOf8AtHead(refreshId, step, rest);
    SearchFinds(m, LogApi.StepOf8At, 0, p);
  }

  /** `step\s*\d+/8:` matches where the step head's `Step` begins. */
  lemma StepOf8AtHead(refreshId: string, step: nat, rest: string) returns (p: nat)
    requires |refreshId| >= 1 && AllDigits(refreshId)
    ensures var m := StepHead(refreshId, step) + ("/8:" + rest);
      p <= |m| && LogApi.StepOf8At(m, p).Some?
  {
    var m := StepHead(refreshId, step) + ("/8:" + rest);
    p := |refreshId| + 11;
    StepHeadLayout(refreshId, step, "/8:" + rest);
    StepOf8AtOf(m, p, NatToString(step), rest);
  }

  /** `Step <d>/8:` at `p` is a match of `step\s*\d+/8:` giving `d`. */
  lemma StepOf8AtOf(m: string, p: nat, d: string, rest: string)
    requires p + 4 <= |m| && m[p..p + 4] == "Step" && m[p + 4..] == " " + d + ("/8:" + rest)
    requires |d| >= 1 && AllDigits(d)
    ensures LogApi.StepOf8At(m, p) == Some(d)
  {
    StepAtOf(m, p, d, "/8:" + rest);
    var u := m[p + 4..];
    assert u[0] == ' ' && u[1] == d[0];
    RunLengthExact(u, IsSpace, 1);
    assert m[p + 5 + |d|..p + 8 + |d|] == u[1 + |d|..4 + |d|] == "/8:";
  }

  /** Round trip with the log API's reader: a step-start message of refresh `r`
      for step `n` is read back as step `n` of `Refresh-r`, status `started`,
      when neither its name nor its details say `completed` or `failed`. */
  lemma StepStartRead(refreshId: string, step: nat, name: string, details: string)
    requires |refreshId| >= 1 && AllDigits(refreshId)
    requires !Contains(Lower(name), "completed") && !Contains(Lower(name), "failed")
    requires !Contains(Lower(details), "completed") && !Contains(Lower(details), "failed")
    ensures LogApi.LineMetadata(StepStart(refreshId, step, name, details).message) ==
      LogApi.Metadata(Some(step), Some("Refresh-" + refreshId), Some("started"))
  {
    var m := StepStart(refreshId, step, name, details).message;
    StepStartText(refreshId, step, name, details);
    StepTags(refreshId, step, "/8:" + StartTail(name, details));
    StartStatus(m, refreshId, step, name, details);
    MetadataOf(m, refreshId, step, Some("started"));
  }

  /** The status the log API reads from a step-start message whose name and
      details say neither `completed` nor `failed`. */
  lemma StartStatus(m: string, refreshId: string, step: nat, name: string, details: string)
    requires |refreshId| >= 1 && AllDigits(refreshId)
    requires m == StepHead(refreshId, step) + ("/8:" + StartTail(name, details))
    requires !Contains(Lower(name), "completed") && !Contains(Lower(name), "failed")
    requires !Contains(Lower(details), "completed") && !Contains(Lower(details), "failed")
    ensures LogApi.StepStatus(m) == Some("started")
  {
    var h := StepHead(refreshId, step);
    HeadLacksWords(refreshId, step);
    NotInStepStart(h, name, details, "completed");
    NotInStepStart(h, name, details, "failed");
    StepOf8Found(refreshId, step, StartTail(name, details));
    StatusStarted(m);
  }

  /** A step head and its `/8` say neither `completed` nor `failed`. */
  lemma HeadLacksWords(refreshId: string, step: nat)
    requires AllDigits(refreshId)
    ensures !Contains(Lower(StepHead(refreshId, step) + "/8"), "completed")
    ensures !Contains(Lower(StepHead(refreshId, step) + "/8"), "failed")
  {
    HeadLacks(refreshId, step);
    AbsentChar(Lower(StepHead(refreshId, step) + "/8"), "completed", 0);
    AbsentChar(Lower(StepHead(refreshId, step) + "/8"), "failed", 1);
  }

  /** A step-complete message is its head, the rest of its first part, the
      words `completed successfully`, the timing and the results. */
  lemma StepCompleteText(refreshId: string, step: nat, name: string, duration: Option<string>, results: Results)
    requires refreshId != ""
    ensures StepComplete(refreshId, step, name, duration, results).message ==
      StepHead(refreshId, step) + (("/8: " + name + " ") + "completed successfully" + CompleteTail(duration, results))
  {
    StepText(refreshId, step, "/8: " + name + " " + "completed successfully" + CompleteTail(duration, results));
  }

  /** Every step-complete message says `completed successfully`, with or
      without a refresh id. */
  lemma StepCompleteSays(refreshId: string, step: nat, name: string, duration: Option<string>, results: Results)
    ensures Contains(StepComplete(refreshId, step, name, duration, results).message, "completed successfully")
  {
    var m := StepComplete(refreshId, step, name, duration, results).message;
    var h := if refreshId != "" then "[Refresh-" + refreshId + "] " else "";
    var y, x := "Step " + NatToString(step), "/8: " + name + " ";
    assert m == h + (y + (x + "completed successfully" + CompleteTail(duration, results)));
    PieceAfter(m, h, y, x, "completed successfully", CompleteTail(duration, results));
  }

  /** The metadata of a step message of refresh `r` for step `n` whose text
      after the head holds the lower-case word `w`, whose status is `status`. */
  lemma ReadWord(m: string, refreshId: string, step: nat, x: string, w: string, tail: string)
    requires |refreshId| >= 1 && AllDigits(refreshId)
    requires |x| > 0 && x[0] == '/'
    requires m == StepHead(refreshId, step) + (x + w + tail)
    requires forall k :: 0 <= k < |w| ==> 'a' <= w[k] <= 'z' || w[k] == ' '
    ensures Contains(Lower(m), w)
    ensures LineTags.StepNumber(m) == Some(NatToString(step))
    ensures LineTags.RefreshTag(m) == Some(refreshId)
  {
    StepTags(refreshId, step, x + w + tail);
    WordInside(m, StepHead(refreshId, step), x, w, tail);
  }

  /** A word standing between two texts is contained in the lower-cased whole
      when it is lower-case letters and spaces. */
  lemma WordBetween(a: string, w: string, b: string)
    requires forall k :: 0 <= k < |w| ==> 'a' <= w[k] <= 'z' || w[k] == ' '
    ensures Contains(Lower(a + w + b), w)
  {
    var m := a + w + b;
    assert m[|a|..|a| + |w|] == w;
    ContainsLowered(m, w, |a|);
  }

  /** A word of lower-case letters and spaces inside a message that is its
      head followed by the rest is contained in the lower-cased message. */
  lemma WordInside(m: string, h: string, x: string, w: string, tail: string)
    requires m == h + (x + w + tail)
    requires forall k :: 0 <= k < |w| ==> 'a' <= w[k] <= 'z' || w[k] == ' '
    ensures Contains(Lower(m), w)
  {
    assert h + (x + w + tail) == (h + x) + w + tail;
    WordBetween(h + x, w, tail);
  }

  /** The status rule for a line that says `completed successfully`. */
  lemma StatusCompleted(m: string)
    requires Contains(Lower(m), "completed successfully")
    ensures LogApi.StepStatus(m) == Some("completed")
  {
  }

  /** The status rule for a line that says `failed` but not `completed successfully`. */
  lemma StatusFailed(m: string)
    requires !Contains(Lower(m), "completed successfully") && Contains(Lower(m), "failed")
    ensures LogApi.StepStatus(m) == Some("failed")
  {
  }

  /** Round trip with the log API's reader: a step-complete message of
      refresh `r` for step `n` is read back as step `n` of `Refresh-r`,
      status `completed`, whatever its name, timing and results. */
  lemma StepCompleteRead(refreshId: string, step: nat, name: string, duration: Option<string>, results: Results)
    requires |refreshId| >= 1 && AllDigits(refreshId)
    ensures LogApi.LineMetadata(StepComplete(refreshId, step, name, duration, results).message) ==
      LogApi.Metadata(Some(step), Some("Refresh-" + refreshId), Some("completed"))
  {
    var m := StepComplete(refreshId, step, name, duration, results).message;
    StepCompleteText(refreshId, step, name, duration, results);
    ReadWord(m, refreshId, step, "/8: " + name + " ", "completed successfully",
      CompleteTail(duration, results));
    StatusCompleted(m);
    MetadataOf(m, refreshId, step, Some("completed"));
  }

  /** Round trip with the tag readers: a progress message of refresh `r` for
      step `n` is read back as step `n` of refresh `r`, whatever its text. */
  lemma StepProgressTags(refreshId: string, step: nat, progress: string, details: string)
    requires |refreshId| >= 1 && AllDigits(refreshId)
    ensures StepProgress(refreshId, step, progress, details).level == Info
    ensures LineTags.StepNumber(StepProgress(refreshId, step, progress, details).message) == Some(NatToString(step))
    ensures LineTags.RefreshTag(StepProgress(refreshId, step, progress, details).message) == Some(refreshId)
  {
    var rest := " Progress: " + progress + DetailsSuffix(details);
    assert "Step " + NatToString(step) + " Progress: " + progress + DetailsSuffix(details)
      == "Step " + NatToString(step) + rest;
    StepText(refreshId, step, rest);
    StepTags(refreshId, step, rest);
  }

  /** A workflow-complete message says `completed successfully`, so the log
      API reads its status as `completed`, with or without a refresh id. */
  lemma WorkflowCompleteRead(refreshId: string, duration: string, totalSteps: int, results: Results)
    ensures WorkflowComplete(refreshId, duration, totalSteps, results).level == Info
    ensures LogApi.StepStatus(WorkflowComplete(refreshId, duration, totalSteps, results).message) == Some("completed")
  {
    var m := WorkflowComplete(refreshId, duration, totalSteps, results).message;
    var h := if refreshId != "" then "[Refresh-" + refreshId + "] " else "";
    var tail := CompleteTiming(duration, totalSteps, results);
    assert m == h + ("IPTV refresh workflow " + "completed successfully" + tail);
    WordInside(m, h, "IPTV refresh workflow ", "completed successfully", tail);
    StatusCompleted(m);
  }

  /** A step-error message is its head, the rest of its first part, the
      word `failed`, the error and the details. */
  lemma StepErrorText(refreshId: string, step: nat, name: string, error: string, details: string)
    requires refreshId != ""
    ensures StepError(refreshId, step, name, error, details).message ==
      StepHead(refreshId, step) + (("/8: " + name + " ") + "failed" + ErrorTail(error, details))
  {
    StepText(refreshId, step, "/8: " + name + " " + "failed" + ErrorTail(error, details));
  }

  /** Round trip with the log API's reader: a step-error message of refresh
      `r` for step `n` is logged at error level and read back as step `n` of
      `Refresh-r`, status `failed`, unless its text says `completed successfully`. */
  lemma StepErrorRead(refreshId: string, step: nat, name: string, error: string, details: string)
    requires |refreshId| >= 1 && AllDigits(refreshId)
    requires !Contains(Lower(StepError(refreshId, step, name, error, details).message), "completed successfully")
    ensures StepError(refreshId, step, name, error, details).level == Error
    ensures LogApi.LineMetadata(StepError(refreshId, step, name, error, details).message) ==
      LogApi.Metadata(Some(step), Some("Refresh-" + refreshId), Some("failed"))
  {
    var m := StepError(refreshId, step, name, error, details).message;
    StepErrorText(refreshId, step, name, error, details);
    ReadWord(m, refreshId, step, "/8: " + name + " ", "failed", ErrorTail(error, details));
    StatusFailed(m);
    MetadataOf(m, refreshId, step, Some("failed"));
  }

  // ---------------------------------------------------------------- the refresh prefix

  /** A message of a refresh with a digit id carries that id as its refresh
      tag, whatever the message says after the prefix. */
  lemma RefreshTagged(refreshId: string, message: string)
    requires |refreshId| >= 1 && AllDigits(refreshId)
    ensures LineTags.RefreshTag(WithRefresh(refreshId, message)) == Some(refreshId)
  {
    var m := WithRefresh(refreshId, message);
    assert m == ("[Refresh-" + refreshId + "]") + (" " + message);
    RefreshAtStart(refreshId, m);
  }

  /** Without a refresh id the message is kept as it is, so a message without
      `[` carries no refresh tag. */
  lemma RefreshUntagged(message: string)
    requires '[' !in message
    ensures WithRefresh("", message) == message
    ensures LineTags.RefreshTag(WithRefresh("", message)).None?
  {
    forall d: string, i: nat | |d| >= 1 && AllDigits(d)
      ensures !OccursAt(message, "[Refresh-" + d + "]", i)
    {
      AbsentChar(message, "[Refresh-" + d + "]", 0);
    }
    LineTags.RefreshTagAbsent(message);
  }

  // ---------------------------------------------------------------- workflow errors

  /** A text holds a piece that stands after a head and some text. */
  lemma PieceInside(m: string, h: string, x: string, w: string, tail: string)
    requires m == h + (x + w + tail)
    ensures Contains(m, w)
  {
    assert h + (x + w + tail) == (h + x) + w + tail;
    assert m[|h + x|..|h + x| + |w|] == w;
    ContainsAt(m, w, |h + x|);
  }

  /** A message whose text runs `h`, `y`, `x`, `w`, `tail` contains `w`. */
  lemma PieceAfter(m: string, h: string, y: string, x: string, w: string, tail: string)
    requires m == h + (y + (x + w + tail))
    ensures Contains(m, w)
  {
    var p := |h| + |y| + |x|;
    assert m[p..p + |w|] == w by {
      forall k | 0 <= k < |w| ensures m[p + k] == w[k] {
        assert (x + w + tail)[|x| + k] == w[k];
      }
    }
    ContainsAt(m, w, p);
  }

  /** A workflow error is logged at error level and names the failed step
      when one is given. */
  lemma WorkflowErrorNamesStep(refreshId: string, error: string, duration: Option<string>, stepFailed: int)
    requires stepFailed != 0
    ensures WorkflowError(refreshId, error, duration, stepFailed).level == Error
    ensures Contains(WorkflowError(refreshId, error, duration, stepFailed).message,
      " (failed at step " + IntToString(stepFailed) + ")")
  {
    var m := WorkflowError(refreshId, error, duration, stepFailed).message;
    var x := "IPTV refresh workflow failed - " + error;
    var h := if refreshId != "" then "[Refresh-" + refreshId + "] " else "";
    assert m == h + (x + FailedAt(stepFailed) + ErrorTiming(duration));
    PieceInside(m, h, x, FailedAt(stepFailed), ErrorTiming(duration));
  }

  /** Without a failed step, and with no `(` in the refresh id, the error or
      the duration, a workflow error holds no `(` at all, so no
      `(failed at step` either. */
  lemma WorkflowErrorWithoutStep(refreshId: string, error: string, duration: Option<string>)
    requires '(' !in refreshId && '(' !in error && (duration.Some? ==> '(' !in duration.value)
    ensures '(' !in WorkflowError(refreshId, error, duration, 0).message
    ensures !Contains(WorkflowError(refreshId, error, duration, 0).message, " (failed at step ")
  {
    NoParenInHead();
    NoParenInTiming(duration);
    NoParenNoStep(WorkflowError(refreshId, error, duration, 0).message);
  }

  lemma NoParenInHead()
    ensures '(' !in "IPTV refresh workflow failed - "
  {
  }

  lemma NoParenInTiming(duration: Option<string>)
    requires duration.Some? ==> '(' !in duration.value
    ensures '(' !in ErrorTiming(duration)
  {
  }

  /** A text without `(` does not contain ` (failed at step `. */
  lemma NoParenNoStep(m: string)
    requires '(' !in m
    ensures !Contains(m, " (failed at step ")
  {
    AbsentChar(m, " (failed at step ", 1);
  }

  // ---------------------------------------------------------------- loggers and handler files

  /** The seven components get seven different logger names. */
  lemma ComponentLoggersDistinct(i: nat, j: nat)
    requires i < |Components| && j < |Components| && i != j
    ensures ComponentLoggerName(Components[i]) != ComponentLoggerName(Components[j])
  {
    assert |Components[i]| != |Components[j]|;
  }

  /** The handler file of a component under the default directory is the
      component's `.log` file in that directory, and the log watcher files it
      under host `ssdev` and application `sports-scheduler`. */
  lemma HandlerFileRead(component: string)
    requires component in Components
    ensures HandlerFile(DefaultLogDir, component) == Path("/", DefaultLogDir.segs + [component + ".log"])
    ensures Name(HandlerFile(DefaultLogDir, component)) == component + ".log"
    ensures RedisIngest.AppName(HandlerFile(DefaultLogDir, component)) == "sports-scheduler"
    ensures RedisIngest.HostOf(Parts(HandlerFile(DefaultLogDir, component))) == "ssdev"
  {
    HandlerSegment(component);
    ChildSeg(DefaultLogDir, component + ".log");
    UnderDefaultDir(DefaultLogDir.segs + [component + ".log"]);
  }

  /** Every component's file name is one well-formed path segment. */
  lemma HandlerSegment(component: string)
    requires component in Components
    ensures ValidSeg(component + ".log")
  {
  }

  /** A file directly under the default directory is filed under host
      `ssdev` and application `sports-scheduler`. */
  lemma UnderDefaultDir(segs: seq<string>)
    requires |segs| == 6 && segs[..5] == DefaultLogDir.segs
    ensures RedisIngest.AppName(Path("/", segs)) == "sports-scheduler"
    ensures RedisIngest.HostOf(Parts(Path("/", segs))) == "ssdev"
  {
    var parts := Parts(Path("/", segs));
    assert parts[5] == "sports-scheduler";
    HostAfterBase(parts);
  }

  lemma HostAfterBase(parts: seq<string>)
    requires |parts| == 7 && parts[..5] == ["/", "var", "log", "centralized", "ssdev"]
    ensures RedisIngest.HostOf(parts) == "ssdev"
  {
    assert parts[4] == "ssdev";
    assert forall j :: 0 <= j < 4 ==> parts[j] !in RedisIngest.KnownHosts;
  }

  // ---------------------------------------------------------------- the workflow-start status

  /** A workflow-start message is its refresh prefix, the opening words and the rest. */
  lemma WorkflowStartText(refreshId: string, trigger: string, totalSteps: int)
    ensures WorkflowStart(refreshId, trigger, totalSteps).message ==
      (if refreshId != "" then "[Refresh-" + refreshId + "] " else "") +
      ("Starting IPTV refresh workflow" + StartRest(trigger, totalSteps))
  {
  }

  /** The characters of an integer's text are digits and `-`. */
  lemma IntTextChars(n: int)
    ensures forall k :: 0 <= k < |IntToString(n)| ==> IsDigit(IntToString(n)[k]) || IntToString(n)[k] == '-'
  {
    if n < 0 {
      assert forall k :: 1 <= k < |IntToString(n)| ==> IntToString(n)[k] == NatToString(-n)[k - 1];
    }
  }

  /** No `d`, `D`, `/` or `*`: the characters whose absence keeps every
      status test of the log API from succeeding. */
  predicate Plain(s: string) {
    'd' !in s && 'D' !in s && '/' !in s && '*' !in s
  }

  lemma PlainOpening()
    ensures Plain("Starting IPTV refresh workflow") && Plain(" (trigger: ") && Plain(", steps: ") && Plain(")")
  {
    OpeningLacksLowerD();
    OpeningLacksUpperD();
    OpeningLacksSlash();
    OpeningLacksStar();
  }

  lemma OpeningLacksLowerD() ensures 'd' !in "Starting IPTV refresh workflow" {}
  lemma OpeningLacksUpperD() ensures 'D' !in "Starting IPTV refresh workflow" {}
  lemma OpeningLacksSlash() ensures '/' !in "Starting IPTV refresh workflow" {}
  lemma OpeningLacksStar() ensures '*' !in "Starting IPTV refresh workflow" {}

  lemma PlainPrefix(refreshId: string)
    requires AllDigits(refreshId)
    ensures Plain(if refreshId != "" then "[Refresh-" + refreshId + "] " else "")
  {
    assert 'd' !in refreshId && 'D' !in refreshId && '/' !in refreshId && '*' !in refreshId;
  }

  /** A workflow-start message whose refresh id is digits and whose trigger
      holds no `d`, `D`, `/` or `*` holds none of them either. */
  lemma WorkflowStartChars(refreshId: string, trigger: string, totalSteps: int)
    requires AllDigits(refreshId) && Plain(trigger)
    ensures Plain(WorkflowStart(refreshId, trigger, totalSteps).message)
  {
    IntTextChars(totalSteps);
    var n := IntToString(totalSteps);
    assert Plain(n);
    PlainOpening();
    PlainPrefix(refreshId);
    WorkflowStartText(refreshId, trigger, totalSteps);
  }

  /** Lower-casing makes a `d` only of `d` or `D`, and a `*` only of `*`. */
  lemma LowerLacks(m: string)
    requires 'd' !in m && 'D' !in m && '*' !in m
    ensures 'd' !in Lower(m) && '*' !in Lower(m)
  {
  }

  /** The status rule on a line without `d` after lower-casing, without `/`
      and without `*`: none of its five tests succeeds. */
  lemma StatusNone(m: string)
    requires 'd' !in Lower(m) && '*' !in Lower(m) && '/' !in m
    ensures LogApi.StepStatus(m).None?
  {
    AbsentChar(Lower(m), "completed successfully", 8);
    AbsentChar(Lower(m), "failed", 5);
    AbsentChar(Lower(m), "starting.*workflow", 9);
    AbsentChar(m, "/8:", 0);
    forall j | 0 <= j <= |m| ensures LogApi.StepOf8At(m, j).None? {
    }
  }

  /** As written, the log API gives a workflow-start message no status: the
      test for `starting.*workflow` looks for that literal text, with its `.*`,
      which the message does not hold. */
  lemma WorkflowStartUnread(refreshId: string, trigger: string, totalSteps: int)
    requires AllDigits(refreshId) && Plain(trigger)
    ensures LogApi.StepStatus(WorkflowStart(refreshId, trigger, totalSteps).message).None?
  {
    var m := WorkflowStart(refreshId, trigger, totalSteps).message;
    WorkflowStartChars(refreshId, trigger, totalSteps);
    LowerLacks(m);
    StatusNone(m);
  }

  /** `starting.*workflow` matches the lower-cased opening words of a
      workflow-start message. */
  lemma OpeningWordsMatch(x: string)
    ensures MatchPrefix(LogApi.StartingWorkflow, "starting iptv refresh workflow" + x)
  {
    var s := "starting iptv refresh workflow" + x;
    var t := s[8..];
    assert t[14..][..8] == "workflow";
    assert MatchPrefix([Word("workflow")], t[14..]);
    assert forall j :: 0 <= j < 14 ==> Dot(t[j]);
    AnyStarSkips([Word("workflow")], t, 14);
    assert s[..8] == "starting";
    assert LogApi.StartingWorkflow[1..] == [AnyStar] + [Word("workflow")];
  }

  /** `starting.*workflow` is found in a text holding the lower-cased opening words. */
  lemma OpeningWordsFound(l: string, h: string, x: string)
    requires l == h + ("starting iptv refresh workflow" + x)
    ensures SearchIn(LogApi.StartingWorkflow, l)
  {
    assert l[|h|..] == "starting iptv refresh workflow" + x;
    OpeningWordsMatch(x);
  }

  lemma LowerOpening()
    ensures Lower("Starting IPTV refresh workflow") == "starting iptv refresh workflow"
  {
  }

  /** With the pattern searched as a pattern, a workflow-start message is
      read as `workflow_started`. */
  lemma WorkflowStartRead(refreshId: string, trigger: string, totalSteps: int)
    requires AllDigits(refreshId) && Plain(trigger)
    ensures LogApi.IntendedStepStatus(WorkflowStart(refreshId, trigger, totalSteps).message) == Some("workflow_started")
  {
    var m := WorkflowStart(refreshId, trigger, totalSteps).message;
    var h := if refreshId != "" then "[Refresh-" + refreshId + "] " else "";
    var rest := StartRest(trigger, totalSteps);
    WorkflowStartUnread(refreshId, trigger, totalSteps);
    WorkflowStartText(refreshId, trigger, totalSteps);
    LowerConcat(h, "Starting IPTV refresh workflow" + rest);
    LowerConcat("Starting IPTV refresh workflow", rest);
    LowerOpening();
    OpeningWordsFound(Lower(m), Lower(h), Lower(rest));
  }
}
