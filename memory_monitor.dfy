/** The memory watchdog script: per-service memory limits and warning
    thresholds, the throttled restart decision with its per-service restart
    counters, the hourly counter reset, and the system-memory alert levels.
    Memory readings, the clock and the outcome of `systemctl restart` are
    parameters; memory is in megabytes as a real number. */
module MemoryMonitor {
  import opened Wrappers

  /** `MEMORY_LIMITS`, in megabytes. */
  const MemoryLimits: map<string, int> := map["enhanced-logging-api" := 512, "logging-dashboard" := 256]

  /** `WARNING_THRESHOLDS`: 80% of each limit. */
  function WarningThresholds(): (r: map<string, real>)
    ensures r.Keys == MemoryLimits.Keys
    ensures forall s :: s in r ==> r[s] == MemoryLimits[s] as real * 0.8
  {
    map s | s in MemoryLimits :: MemoryLimits[s] as real * 0.8
  }

  /** The thresholds are 409.6 and 204.8 megabytes, each below its limit, so
      a reading above the limit is always above the threshold as well. */
  lemma ThresholdsBelowLimits()
    ensures WarningThresholds()["enhanced-logging-api"] == 409.6
    ensures WarningThresholds()["logging-dashboard"] == 204.8
    ensures forall s :: s in MemoryLimits ==> WarningThresholds()[s] < MemoryLimits[s] as real
  {
    assert MemoryLimits.Keys == {"enhanced-logging-api", "logging-dashboard"};
  }

  // ---------------------------------------------------------------- one service

  /** What one check of one service leads to. */
  datatype Action =
    | NotFound         // no process matched the service name
    | Restarted        // over the limit, restart allowed, and systemctl succeeded
    | RestartFailed    // over the limit, restart allowed, but systemctl failed
    | RestartRefused   // over the limit, but restarted too recently or too often
    | Warned           // within the limit but above the warning threshold
    | Normal

  /** A restart is allowed more than 20 minutes after the last one and while
      fewer than three restarts are counted. */
  predicate RestartAllowed(count: nat, last: int, now: int) {
    now - last > 1200 && count < 3
  }

  /** The decision of the service loop for one reading (`None` when no
      process was found). */
  function Decide(usage: Option<real>, limit: int, threshold: real, count: nat, last: int, now: int,
                  restartSucceeds: bool): (a: Action)
    ensures a == NotFound <==> usage.None?
    ensures a == Restarted ==> restartSucceeds
  {
    match usage
    case None => NotFound
    case Some(mb) =>
      if mb > limit as real then
        if RestartAllowed(count, last, now) then
          (if restartSucceeds then Restarted else RestartFailed)
        else RestartRefused
      else if mb > threshold then Warned
      else Normal
  }

  /** A restart is attempted exactly when the reading is above the limit, the
      last restart was more than 1200 seconds ago and fewer than three are
      counted. */
  lemma RestartAttemptedIff(usage: Option<real>, limit: int, threshold: real, count: nat, last: int, now: int, ok: bool)
    ensures Decide(usage, limit, threshold, count, last, now, ok) in {Restarted, RestartFailed} <==>
      usage.Some? && usage.value > limit as real && now - last > 1200 && count < 3
  {
  }

  /** The warning fires exactly for a reading within the limit and above the threshold. */
  lemma WarnedIff(usage: Option<real>, limit: int, threshold: real, count: nat, last: int, now: int, ok: bool)
    ensures Decide(usage, limit, threshold, count, last, now, ok) == Warned <==>
      usage.Some? && usage.value <= limit as real && usage.value > threshold
  {
  }

  // ---------------------------------------------------------------- the counters

  /** `restart_counts` and `last_restart`. */
  datatype MonitorState = MonitorState(counts: map<string, nat>, last: map<string, int>)

  /** Both tables cover exactly the configured services, and no count exceeds three. */
  predicate Valid(st: MonitorState) {
    st.counts.Keys == MemoryLimits.Keys && st.last.Keys == MemoryLimits.Keys &&
    forall s :: s in st.counts ==> st.counts[s] <= 3
  }

  /** The tables `monitor_services` starts with. */
  function InitialState(): (st: MonitorState)
    ensures Valid(st)
    ensures forall s :: s in st.counts ==> st.counts[s] == 0 && st.last[s] == 0
  {
    MonitorState(map s | s in MemoryLimits :: 0, map s | s in MemoryLimits :: 0)
  }

  /** One check of service `s`: only a successful restart changes the
      tables, counting it and recording its time. */
  function Check(st: MonitorState, s: string, usage: Option<real>, now: int, ok: bool): (r: (MonitorState, Action))
    requires Valid(st) && s in MemoryLimits
  {
    var a := Decide(usage, MemoryLimits[s], WarningThresholds()[s], st.counts[s], st.last[s], now, ok);
    if a == Restarted then (MonitorState(st.counts[s := st.counts[s] + 1], st.last[s := now]), a)
    else (st, a)
  }

  /** A check keeps the counts within three, and the tables move only on a restart. */
  lemma CheckKeepsValid(st: MonitorState, s: string, usage: Option<real>, now: int, ok: bool)
    requires Valid(st) && s in MemoryLimits
    ensures Valid(Check(st, s, usage, now, ok).0)
    ensures Check(st, s, usage, now, ok).1 != Restarted ==> Check(st, s, usage, now, ok).0 == st
  {
  }

  /** After a restart the same service is not restarted again within the
      next 1200 seconds, whatever it reads. */
  lemma NoRestartWithin20Minutes(st: MonitorState, s: string, u1: Option<real>, now: int, ok: bool,
                                 u2: Option<real>, later: int, ok2: bool)
    requires Valid(st) && s in MemoryLimits
    requires Check(st, s, u1, now, ok).1 == Restarted && later - now <= 1200
    ensures Check(Check(st, s, u1, now, ok).0, s, u2, later, ok2).1 != Restarted
  {
  }

  /** The hourly reset: every service whose last restart is more than an hour
      old has its count set back to 0. */
  function Reset(st: MonitorState, now: int): (r: MonitorState)
    requires Valid(st)
    ensures Valid(r) && r.last == st.last
    ensures forall s :: s in r.counts ==> r.counts[s] == (if now - st.last[s] > 3600 then 0 else st.counts[s])
  {
    MonitorState(map s | s in st.counts :: if now - st.last[s] > 3600 then 0 else st.counts[s], st.last)
  }

  /** A service with three counted restarts is refused every further restart
      until the hourly reset clears its count. */
  lemma ThirdRestartBlocks(st: MonitorState, s: string, usage: Option<real>, now: int, ok: bool)
    requires Valid(st) && s in MemoryLimits && st.counts[s] == 3
    ensures Check(st, s, usage, now, ok).1 !in {Restarted, RestartFailed}
    ensures now - st.last[s] > 3600 ==> Reset(st, now).counts[s] == 0
  {
  }

  // ---------------------------------------------------------------- system memory

  datatype Severity = Info | Warning | Critical

  /** `check_system_memory`'s alert level for a used percentage. */
  function SystemSeverity(percent: real): (r: Severity)
    ensures r == Critical <==> percent > 90.0
    ensures r == Info <==> percent <= 80.0
  {
    if percent > 90.0 then Critical else if percent > 80.0 then Warning else Info
  }

  function Rank(v: Severity): nat {
    match v
    case Info => 0
    case Warning => 1
    case Critical => 2
  }

  /** More memory in use never lowers the alert level. */
  lemma SeverityMonotone(p: real, q: real)
    requires p <= q
    ensures Rank(SystemSeverity(p)) <= Rank(SystemSeverity(q))
  {
  }

  // ---------------------------------------------------------------- the loop state

  /** The two tables of `monitor_services`, updated in place. */
  class Monitor {
    var counts: map<string, nat>
    var last: map<string, int>

    constructor()
      ensures State() == InitialState()
    {
      counts := map s | s in MemoryLimits :: 0;
      last := map s | s in MemoryLimits :: 0;
    }

    function State(): MonitorState
      reads this
    {
      MonitorState(counts, last)
    }

    /** One pass of the service loop for service `s`. */
    method CheckService(s: string, usage: Option<real>, now: int, restartSucceeds: bool) returns (a: Action)
      requires Valid(State()) && s in MemoryLimits
      modifies this
      ensures (State(), a) == Check(old(State()), s, usage, now, restartSucceeds)
      ensures Valid(State())
    {
      var limit := MemoryLimits[s];
      match usage {
        case None =>
          a := NotFound;
        case Some(mb) =>
          if mb > limit as real {
            if now - last[s] > 1200 && counts[s] < 3 {
              if restartSucceeds {
                counts := counts[s := counts[s] + 1];
                last := last[s := now];
                a := Restarted;
              } else {
                a := RestartFailed;
              }
            } else {
              a := RestartRefused;
            }
          } else if mb > WarningThresholds()[s] {
            a := Warned;
          } else {
            a := Normal;
          }
      }
      CheckKeepsValid(old(State()), s, usage, now, restartSucceeds);
    }

    /** The reset loop at the end of each pass. */
    method ResetCounts(now: int)
      requires Valid(State())
      modifies this
      ensures State() == Reset(old(State()), now)
    {
      var todo := counts.Keys;
      while todo != {}
        invariant todo <= counts.Keys == old(counts).Keys
        invariant last == old(last)
        invariant forall s :: s in todo ==> counts[s] == old(counts)[s]
        invariant forall s :: s in counts && s !in todo ==>
          counts[s] == if now - last[s] > 3600 then 0 else old(counts)[s]
        decreases todo
      {
        var s :| s in todo;
        if now - last[s] > 3600 {
          counts := counts[s := 0];
        }
        todo := todo - {s};
      }
    }
  }
}
