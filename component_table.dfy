/** The log API's `COMPONENT_PATTERNS` table and `identify_component_and_step`:
    per application, components in table order, each with its detection
    patterns and its steps in order, each step with its own patterns. Dict
    order is insertion order, so the tables are sequences. A pattern
    `a.*b` is written `[Word("a"), AnyStar, Word("b")]`. */
module ComponentTable {
  import opened Wrappers
  import opened Text
  import opened PySeq
  import opened Regex

  datatype StepRule = StepRule(name: string, patterns: seq<Pattern>)
  datatype ComponentRule = ComponentRule(name: string, patterns: seq<Pattern>, steps: seq<StepRule>)

  /** `\[Refresh-\d+\]` */
  const RefreshPattern: Pattern := [Word("[Refresh-"), DigitPlus, Word("]")]

  /** The orchestrator: `iptv.?refresh`, `orchestrator`, `workflow`,
      `sports_scheduler\.iptv_orchestrator`, `\[Refresh-\d+\]`; steps `step-1`
      to `step-8`, each `step\s*k/8`, `step\s*k\s*:` and two phrases. */
  const Orchestrator: ComponentRule := ComponentRule("iptv-orchestrator",
    [[Word("iptv"), AnyOpt, Word("refresh")], [Word("orchestrator")], [Word("workflow")], [Word("sports_scheduler.iptv_orchestrator")], RefreshPattern],
    [
     StepRule("step-1",
       [[Word("step"), SpaceStar, Word("1/8")],
        [Word("step"), SpaceStar, Word("1"), SpaceStar, Word(":")],
        [Word("purge"), AnyStar, Word("xtream")],
        [Word("purging"), AnyStar, Word("xtream"), AnyStar, Word("provider"), AnyStar, Word("data")]]),
     StepRule("step-2",
       [[Word("step"), SpaceStar, Word("2/8")],
        [Word("step"), SpaceStar, Word("2"), SpaceStar, Word(":")],
        [Word("refresh"), AnyStar, Word("xtream"), AnyStar, Word("channels")],
        [Word("refreshing"), AnyStar, Word("xtream"), AnyStar, Word("channels")]]),
     StepRule("step-3",
       [[Word("step"), SpaceStar, Word("3/8")],
        [Word("step"), SpaceStar, Word("3"), SpaceStar, Word(":")],
        [Word("refresh"), AnyStar, Word("xtream"), AnyStar, Word("epg")],
        [Word("refreshing"), AnyStar, Word("xtream"), AnyStar, Word("epg"), AnyStar, Word("data")]]),
     StepRule("step-4",
       [[Word("step"), SpaceStar, Word("4/8")],
        [Word("step"), SpaceStar, Word("4"), SpaceStar, Word(":")],
        [Word("purge"), AnyStar, Word("epg"), AnyStar, Word("database")],
        [Word("purging"), AnyStar, Word("epg"), AnyStar, Word("database")]]),
     StepRule("step-5",
       [[Word("step"), SpaceStar, Word("5/8")],
        [Word("step"), SpaceStar, Word("5"), SpaceStar, Word(":")],
        [Word("refresh"), AnyStar, Word("epg"), AnyStar, Word("database")],
        [Word("refreshing"), AnyStar, Word("epg"), AnyStar, Word("database")]]),
     StepRule("step-6",
       [[Word("step"), SpaceStar, Word("6/8")],
        [Word("step"), SpaceStar, Word("6"), SpaceStar, Word(":")],
        [Word("generat"), AnyStar, Word("sports"), AnyStar, Word("playlist")],
        [Word("generating"), AnyStar, Word("sports"), AnyStar, Word("playlist")]]),
     StepRule("step-7",
       [[Word("step"), SpaceStar, Word("7/8")],
        [Word("step"), SpaceStar, Word("7"), SpaceStar, Word(":")],
        [Word("refresh"), AnyStar, Word("channels"), AnyStar, Word("dvr")],
        [Word("refreshing"), AnyStar, Word("channels"), AnyStar, Word("dvr")]]),
     StepRule("step-8",
       [[Word("step"), SpaceStar, Word("8/8")],
        [Word("step"), SpaceStar, Word("8"), SpaceStar, Word(":")],
        [Word("process"), AnyStar, Word("automated"), AnyStar, Word("record")],
        [Word("automated"), AnyStar, Word("record"), AnyStar, Word("rules")]])
    ])

  /** The job steps both schedulers share: trigger, execute, complete. */
  const JobSteps: seq<StepRule> := [
    StepRule("trigger",
      [[Word("trigger"), AnyStar, Word("job")],
       [Word("starting"), AnyStar, Word("job")],
       [Word("job"), AnyStar, Word("triggered")]]),
    StepRule("execute",
      [[Word("execute"), AnyStar, Word("job")],
       [Word("running"), AnyStar, Word("job")],
       [Word("job"), AnyStar, Word("execution")]]),
    StepRule("complete",
      [[Word("complete"), AnyStar, Word("job")],
       [Word("job"), AnyStar, Word("completed")],
       [Word("job"), AnyStar, Word("finished")]])
  ]

  /** The sports scheduler's components, in table order. */
  const SportsScheduler: seq<ComponentRule> := [
    Orchestrator,
    ComponentRule("epg-processor",
      [[Word("epg"), AnyOpt, Word("processor")], [Word("epg"), AnyOpt, Word("refresh")], [Word("xmltv")]],
      [
       StepRule("fetch",
         [[Word("fetch"), AnyStar, Word("epg")],
          [Word("downloading"), AnyStar, Word("epg")],
          [Word("getting"), AnyStar, Word("epg")]]),
       StepRule("parse",
         [[Word("parse"), AnyStar, Word("epg")],
          [Word("parsing"), AnyStar, Word("xmltv")],
          [Word("processing"), AnyStar, Word("epg")]]),
       StepRule("store",
         [[Word("store"), AnyStar, Word("epg")],
          [Word("saving"), AnyStar, Word("epg")],
          [Word("database"), AnyStar, Word("insert")]])
      ]),
    ComponentRule("channel-scanner",
      [[Word("channel"), AnyOpt, Word("scanner")], [Word("scan"), AnyStar, Word("channels")], [Word("channel"), AnyOpt, Word("refresh")]],
      [
       StepRule("scan",
         [[Word("scanning"), AnyStar, Word("channels")],
          [Word("channel"), AnyStar, Word("scan")],
          [Word("discovering"), AnyStar, Word("channels")]]),
       StepRule("filter",
         [[Word("filter"), AnyStar, Word("channels")],
          [Word("filtering"), AnyStar, Word("channels")],
          [Word("channel"), AnyStar, Word("filter")]]),
       StepRule("update",
         [[Word("update"), AnyStar, Word("channels")],
          [Word("updating"), AnyStar, Word("channels")],
          [Word("channel"), AnyStar, Word("update")]])
      ]),
    ComponentRule("playlist-generator",
      [[Word("playlist"), AnyOpt, Word("generator")], [Word("generate"), AnyStar, Word("playlist")], [Word("m3u"), AnyStar, Word("generation")]],
      [
       StepRule("filter",
         [[Word("filter"), AnyStar, Word("channels")],
          [Word("filtering"), AnyStar, Word("sports")],
          [Word("channel"), AnyStar, Word("filtering")]]),
       StepRule("generate",
         [[Word("generate"), AnyStar, Word("m3u")],
          [Word("creating"), AnyStar, Word("playlist")],
          [Word("playlist"), AnyStar, Word("generation")]]),
       StepRule("upload",
         [[Word("upload"), AnyStar, Word("playlist")],
          [Word("deploying"), AnyStar, Word("playlist")],
          [Word("playlist"), AnyStar, Word("upload")]])
      ]),
    ComponentRule("scheduler", [[Word("scheduler")], [Word("cron")], [Word("schedule"), AnyStar, Word("task")]], JobSteps)
  ]

  /** The auto-scraper's components, in table order. */
  const AutoScraper: seq<ComponentRule> := [
    ComponentRule("list-creator",
      [[Word("list"), AnyOpt, Word("creator")], [Word("list"), AnyOpt, Word("creation")], [Word("create"), AnyStar, Word("list")]],
      [
       StepRule("init",
         [[Word("init"), AnyStar, Word("list")],
          [Word("starting"), AnyStar, Word("list"), AnyStar, Word("creation")],
          [Word("list"), AnyStar, Word("job"), AnyStar, Word("start")]]),
       StepRule("fetch",
         [[Word("fetch"), AnyStar, Word("items")],
          [Word("getting"), AnyStar, Word("items")],
          [Word("retrieving"), AnyStar, Word("items")]]),
       StepRule("filter",
         [[Word("filter"), AnyStar, Word("items")],
          [Word("filtering"), AnyStar, Word("items")],
          [Word("item"), AnyStar, Word("filter")]]),
       StepRule("process",
         [[Word("process"), AnyStar, Word("items")],
          [Word("processing"), AnyStar, Word("items")],
          [Word("item"), AnyStar, Word("processing")]]),
       StepRule("create",
         [[Word("create"), AnyStar, Word("list")],
          [Word("creating"), AnyStar, Word("list")],
          [Word("list"), AnyStar, Word("creation")]]),
       StepRule("publish",
         [[Word("publish"), AnyStar, Word("list")],
          [Word("publishing"), AnyStar, Word("trakt")],
          [Word("trakt"), AnyStar, Word("publish")]])
      ]),
    ComponentRule("scraper",
      [[Word("scraper")], [Word("scrape"), AnyStar, Word("job")], [Word("scraping")]],
      [
       StepRule("init",
         [[Word("init"), AnyStar, Word("scrape")],
          [Word("starting"), AnyStar, Word("scrape")],
          [Word("scrape"), AnyStar, Word("job"), AnyStar, Word("start")]]),
       StepRule("fetch",
         [[Word("fetch"), AnyStar, Word("media")],
          [Word("getting"), AnyStar, Word("media")],
          [Word("retrieving"), AnyStar, Word("media")]]),
       StepRule("parse",
         [[Word("parse"), AnyStar, Word("media")],
          [Word("parsing"), AnyStar, Word("media")],
          [Word("media"), AnyStar, Word("parsing")]]),
       StepRule("store",
         [[Word("store"), AnyStar, Word("media")],
          [Word("saving"), AnyStar, Word("media")],
          [Word("media"), AnyStar, Word("storage")]])
      ]),
    ComponentRule("trakt-sync",
      [[Word("trakt"), AnyOpt, Word("sync")], [Word("trakt"), AnyOpt, Word("service")], [Word("sync"), AnyStar, Word("trakt")]],
      [
       StepRule("auth",
         [[Word("trakt"), AnyStar, Word("auth")],
          [Word("authenticate"), AnyStar, Word("trakt")],
          [Word("trakt"), AnyStar, Word("login")]]),
       StepRule("fetch",
         [[Word("fetch"), AnyStar, Word("trakt")],
          [Word("getting"), AnyStar, Word("trakt")],
          [Word("trakt"), AnyStar, Word("fetch")]]),
       StepRule("sync",
         [[Word("sync"), AnyStar, Word("trakt")],
          [Word("syncing"), AnyStar, Word("trakt")],
          [Word("trakt"), AnyStar, Word("sync")]]),
       StepRule("update",
         [[Word("update"), AnyStar, Word("trakt")],
          [Word("updating"), AnyStar, Word("trakt")],
          [Word("trakt"), AnyStar, Word("update")]])
      ]),
    ComponentRule("scheduler", [[Word("scheduler")], [Word("cron")], [Word("schedule"), AnyStar, Word("job")]], JobSteps)
  ]

  /** `COMPONENT_PATTERNS[application]`, or `None` for an application the
      table does not list. */
  function RulesOf(application: string): (r: Option<seq<ComponentRule>>)
    ensures r.Some? <==> application in {"sports-scheduler", "auto-scraper"}
  {
    if application == "sports-scheduler" then Some(SportsScheduler)
    else if application == "auto-scraper" then Some(AutoScraper)
    else None
  }

  /** `identify_component_and_step(application, message)`: on the lower-cased
      message, the first component (in table order) one of whose patterns is
      found, and the first of its steps one of whose patterns is found. */
  function Identify(application: string, message: string): (r: (string, Option<string>))
  {
    match RulesOf(application)
    case None => ("general", None)
    case Some(rules) => IdentifyIn(rules, Lower(message))
  }

  /** The first-match walk over one application's table, on lower-cased text `l`. */
  function IdentifyIn(rules: seq<ComponentRule>, l: string): (r: (string, Option<string>))
  {
    var c := FirstWhere(rules, (rule: ComponentRule) => SearchAny(rule.patterns, l));
    if c == |rules| then ("general", None)
    else
      var steps := rules[c].steps;
      var k := FirstWhere(steps, (st: StepRule) => SearchAny(st.patterns, l));
      (rules[c].name, if k < |steps| then Some(steps[k].name) else None)
  }

  /** The step chosen among `steps` for the lower-cased message `l`. */
  predicate FirstStepIs(steps: seq<StepRule>, l: string, step: Option<string>) {
    match step
    case None => forall k :: 0 <= k < |steps| ==> !SearchAny(steps[k].patterns, l)
    case Some(st) => exists k :: (0 <= k < |steps| && st == steps[k].name && SearchAny(steps[k].patterns, l)
      && forall j :: 0 <= j < k ==> !SearchAny(steps[j].patterns, l))
  }

  /** What `Identify` answers, as a first-match rule: either nothing in the
      application's table matches (or the application has none) and the answer
      is `general` without a step, or the answer names the first matching
      component (every earlier one fails) with its first matching step, if any. */
  lemma IdentifySpec(application: string, message: string)
    ensures var r := Identify(application, message);
      var l := Lower(message);
      match RulesOf(application)
      case None => r == ("general", None)
      case Some(rules) => FirstMatchIs(rules, l, r)
  {
    match RulesOf(application)
    case None =>
    case Some(rules) => IdentifyInSpec(rules, Lower(message));
  }

  /** `r` is the first-match answer for the table `rules` on the text `l`. */
  predicate FirstMatchIs(rules: seq<ComponentRule>, l: string, r: (string, Option<string>)) {
    ((forall j :: 0 <= j < |rules| ==> !SearchAny(rules[j].patterns, l)) && r == ("general", None))
    || (exists c :: (0 <= c < |rules| && SearchAny(rules[c].patterns, l)
          && (forall j :: 0 <= j < c ==> !SearchAny(rules[j].patterns, l))
          && r.0 == rules[c].name && FirstStepIs(rules[c].steps, l, r.1)))
  }

  lemma IdentifyInSpec(rules: seq<ComponentRule>, l: string)
    ensures FirstMatchIs(rules, l, IdentifyIn(rules, l))
  {
    var c := FirstWhere(rules, (rule: ComponentRule) => SearchAny(rule.patterns, l));
    if c < |rules| {
      var steps := rules[c].steps;
      var k := FirstWhere(steps, (st: StepRule) => SearchAny(st.patterns, l));
      if k < |steps| {
        assert IdentifyIn(rules, l).1 == Some(steps[k].name);
      }
    }
  }

  /** An application without a table entry is always `general`, without a step. */
  lemma UnknownApplicationIsGeneral(application: string, message: string)
    requires application != "sports-scheduler" && application != "auto-scraper"
    ensures Identify(application, message) == ("general", None)
  {
  }

  /** The `\[Refresh-\d+\]` pattern is searched in the lower-cased message, so
      its capital `R` can never be found: it never identifies a component. */
  lemma RefreshPatternNeverMatches(message: string)
    ensures !SearchIn(RefreshPattern, Lower(message))
  {
    assert 'R' in RefreshPattern[0].w;
    UpperNeverMatchesLowered(RefreshPattern, 0, 'R', message);
  }

  /** `step\s*k/8` is found wherever the text says `step k/8` with one space. */
  lemma StepOf8Found(k: string, l: string, i: nat)
    requires OccursAt(l, "step " + k + "/8", i)
    ensures SearchIn([Word("step"), SpaceStar, Word(k + "/8")], l)
  {
    var s := l[i..];
    var w := "step " + k + "/8";
    var p := [Word("step"), SpaceStar, Word(k + "/8")];
    assert s[..|w|] == w;
    assert StartsWith(s[5..], k + "/8") by {
      assert s[5..][..|k| + 2] == w[5..];
    }
    assert MatchPrefix(p[2..], s[5..]);
    assert MatchPrefix(p[1..], s[4..]) by {
      assert s[4..][0] == ' ' && s[4..][1..] == s[5..];
      assert p[1..][1..] == p[2..];
    }
    assert StartsWith(s, "step") by {
      assert s[..4] == w[..4];
    }
    assert MatchPrefix(p, s);
  }

  /** A sports-scheduler message that mentions the orchestrator and says
      `Step 1/8` is identified as the orchestrator's first step: the
      orchestrator is the first component and `step-1` its first step. */
  lemma OrchestratorStepOne(message: string)
    requires Contains(Lower(message), "orchestrator") && Contains(Lower(message), "step 1/8")
    ensures Identify("sports-scheduler", message) == ("iptv-orchestrator", Some("step-1"))
  {
    var l := Lower(message);
    SearchWord("orchestrator", l);
    assert Orchestrator.patterns[1] == [Word("orchestrator")];
    assert SearchAny(SportsScheduler[0].patterns, l);
    var i :| 0 <= i <= |l| - 8 && OccursAt(l, "step 1/8", i);
    assert "step " + "1" + "/8" == "step 1/8";
    StepOf8Found("1", l, i);
    assert "1" + "/8" == "1/8";
    assert Orchestrator.steps[0].patterns[0] == [Word("step"), SpaceStar, Word("1" + "/8")];
    assert SearchAny(Orchestrator.steps[0].patterns, l);
  }
}
