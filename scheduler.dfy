/** The scheduler of the log server: named periodic tasks with their run
    counters, one tick of the scheduler loop, forced runs, and the two
    housekeeping tasks that touch the store (old daily keys, metrics history).
    Time is integer seconds given by the caller; whether a task's function
    raises is given as the set of names whose function fails. */
module Scheduler {
  import opened Store

  /** A task entry: its interval and description, when it last ran (0 for
      never) and how often it ran and failed. The callable itself is
      represented by the task's name. */
  datatype Task = Task(interval: int, description: string, lastRun: int, runCount: nat, errorCount: nat)

  /** The entry `add_task` stores: nothing run, nothing failed. */
  function NewTask(interval: int, description: string): Task {
    Task(interval, description, 0, 0, 0)
  }

  // ---------------------------------------------------------------- one task

  /** The scheduler loop runs a task when at least its interval has passed
      since its last run. */
  predicate Due(task: Task, t: int) {
    t - task.lastRun >= task.interval
  }

  /** One task at one tick: a due task that succeeds records the tick time and
      one more run; a due task whose function raises records one more error
      and keeps its last run; a task that is not due is left alone. */
  function TickTask(task: Task, t: int, fails: bool): (r: Task)
    ensures r.interval == task.interval && r.description == task.description
    ensures r.runCount == (if Due(task, t) && !fails then task.runCount + 1 else task.runCount)
    ensures r.errorCount == (if Due(task, t) && fails then task.errorCount + 1 else task.errorCount)
    ensures r.lastRun == (if Due(task, t) && !fails then t else task.lastRun)
  {
    if !Due(task, t) then task
    else if fails then task.(errorCount := task.errorCount + 1)
    else task.(lastRun := t, runCount := task.runCount + 1)
  }

  /** After a successful run a task with a positive interval is not due again
      until the interval has passed. */
  lemma NotDueAgainTooSoon(task: Task, t: int, later: int)
    requires Due(task, t) && task.interval > 0
    ensures Due(TickTask(task, t, false), later) <==> later >= t + task.interval
  {
  }

  /** A failed run leaves the task due at every later tick: it is retried
      every second until it succeeds. */
  lemma FailureStaysDue(task: Task, t: int, later: int)
    requires Due(task, t) && later >= t
    ensures Due(TickTask(task, t, true), later)
  {
  }

  /** One tick adds one to exactly one counter of a due task, and nothing to a task that is not due. */
  lemma TickCounts(task: Task, t: int, fails: bool)
    ensures var r := TickTask(task, t, fails);
      r.runCount + r.errorCount == task.runCount + task.errorCount + (if Due(task, t) then 1 else 0)
  {
  }

  // ---------------------------------------------------------------- what get_tasks reports

  /** `next_run`: a time, or `pending` for a task that never ran. */
  datatype NextRun = Pending | At(time: int)

  /** `get_tasks`' entry for one task. */
  datatype TaskInfo = TaskInfo(description: string, interval: int, lastRun: int,
                               runCount: nat, errorCount: nat, nextRun: NextRun)

  function Info(task: Task): TaskInfo {
    TaskInfo(task.description, task.interval, task.lastRun, task.runCount, task.errorCount,
             if task.lastRun > 0 then At(task.lastRun + task.interval) else Pending)
  }

  /** `get_tasks`: one entry per task. */
  function TaskInfos(tasks: map<string, Task>): (r: map<string, TaskInfo>)
    ensures r.Keys == tasks.Keys
    ensures forall n :: n in r ==> r[n].runCount == tasks[n].runCount && r[n].errorCount == tasks[n].errorCount
  {
    map n | n in tasks :: Info(tasks[n])
  }

  /** The reported next run is exactly the first tick time at which a task
      that already ran is due again; `pending` is reported only for a task
      that never ran (last run 0 or less). */
  lemma NextRunIsWhenDue(task: Task, t: int)
    ensures Info(task).nextRun.Pending? <==> task.lastRun <= 0
    ensures Info(task).nextRun.At? ==> (Due(task, t) <==> t >= Info(task).nextRun.time)
  {
  }

  // ---------------------------------------------------------------- all tasks

  /** One pass of the scheduler loop over every task at tick time `t`. */
  function TickAll(tasks: map<string, Task>, t: int, fails: set<string>): (r: map<string, Task>)
    ensures r.Keys == tasks.Keys
  {
    map n | n in tasks :: TickTask(tasks[n], t, n in fails)
  }

  /** A pass runs exactly the due tasks whose function succeeds, and changes
      no task that is not due. */
  lemma TickAllRunsDue(tasks: map<string, Task>, t: int, fails: set<string>, n: string)
    requires n in tasks
    ensures TickAll(tasks, t, fails)[n].runCount == tasks[n].runCount + 1 <==> Due(tasks[n], t) && n !in fails
    ensures !Due(tasks[n], t) ==> TickAll(tasks, t, fails)[n] == tasks[n]
  {
  }

  /** `force_run_task` on the tasks: an unknown name changes nothing and
      answers false; otherwise the run is recorded at `t`, due or not, and
      answers true, or a raising function records an error and answers false. */
  function ForceRun(tasks: map<string, Task>, name: string, t: int, fails: bool): (r: (map<string, Task>, bool))
    ensures r.0.Keys == tasks.Keys
    ensures r.1 <==> name in tasks && !fails
    ensures name !in tasks ==> r.0 == tasks
  {
    if name !in tasks then (tasks, false)
    else if fails then (tasks[name := tasks[name].(errorCount := tasks[name].errorCount + 1)], false)
    else (tasks[name := tasks[name].(lastRun := t, runCount := tasks[name].runCount + 1)], true)
  }

  /** A forced run ignores the interval: the task it runs is recorded as run
      whether or not it was due, and no other task changes. */
  lemma ForceRunIgnoresInterval(tasks: map<string, Task>, name: string, t: int, other: string)
    requires name in tasks && other in tasks && other != name
    ensures ForceRun(tasks, name, t, false).0[name].runCount == tasks[name].runCount + 1
    ensures ForceRun(tasks, name, t, false).0[name].lastRun == t
    ensures !Due(ForceRun(tasks, name, t, false).0[name], t) <==> tasks[name].interval > 0
    ensures ForceRun(tasks, name, t, false).0[other] == tasks[other]
  {
  }

  // ---------------------------------------------------------------- default tasks

  /** The four tasks `_register_default_tasks` adds. */
  function DefaultTasks(): (r: map<string, Task>)
    ensures |r.Keys| == 4
  {
    map[
      "update_system_metrics" := NewTask(30, "Update system resource metrics"),
      "redis_health_check" := NewTask(60, "Check Redis connection health"),
      "cleanup_old_logs" := NewTask(3600, "Clean up old log entries from Redis"),
      "metrics_summary" := NewTask(300, "Generate and store metrics summary")]
  }

  /** Every default task is due at the first tick an hour or more after the
      epoch, and none of them reports a next run before it has run. */
  lemma DefaultsFirstTick(t: int, n: string)
    requires t >= 3600 && n in DefaultTasks()
    ensures Due(DefaultTasks()[n], t)
    ensures Info(DefaultTasks()[n]).nextRun == Pending
  {
  }

  // ---------------------------------------------------------------- housekeeping tasks

  /** `_cleanup_old_logs`: the daily keys of the days 8 to 14 days before
      `today` (days counted as integers) are deleted; every other daily key
      stays. */
  method CleanupOldLogs(days: set<int>, today: int) returns (kept: set<int>)
    ensures kept <= days
    ensures forall d :: d in kept <==> d in days && !(today - 14 <= d <= today - 8)
  {
    kept := days;
    for i := 8 to 15
      invariant kept <= days
      invariant forall d :: d in kept <==> d in days && !(today - i < d <= today - 8)
    {
      var old_day := today - i;
      if old_day in kept {
        kept := kept - {old_day};
      }
    }
  }

  /** `_generate_metrics_summary` on the `metrics:history` list: the new
      summary goes first and the list keeps its 288 newest entries. */
  function RecordSummary<T>(history: seq<T>, summary: T): (r: seq<T>)
    ensures |r| == if |history| < 288 then |history| + 1 else 288
    ensures r[0] == summary
    ensures r[1..] == history[..|r| - 1]
  {
    PushCapped(history, summary, 288)
  }

  // ---------------------------------------------------------------- the manager object

  /** `SchedulerManager`: the running flag and the task table. The thread
      is left out; whether it is alive is a parameter. */
  class SchedulerManager {
    var running: bool
    var tasks: map<string, Task>

    /** `__init__`: not running, with the default tasks registered. */
    constructor()
      ensures !running && tasks == DefaultTasks()
    {
      running := false;
      tasks := map[];
      new;
      AddTask("update_system_metrics", 30, "Update system resource metrics");
      AddTask("redis_health_check", 60, "Check Redis connection health");
      AddTask("cleanup_old_logs", 3600, "Clean up old log entries from Redis");
      AddTask("metrics_summary", 300, "Generate and store metrics summary");
    }

    /** `start`: sets the flag; a second start changes nothing. */
    method Start()
      modifies this
      ensures running && tasks == old(tasks)
    {
      if running {
        return;
      }
      running := true;
    }

    /** `stop`: clears the flag; stopping a stopped scheduler changes nothing. */
    method Stop()
      modifies this
      ensures !running && tasks == old(tasks)
    {
      if !running {
        return;
      }
      running := false;
    }

    /** `is_running`. */
    function IsRunning(threadAlive: bool): (r: bool)
      reads this
      ensures r <==> running && threadAlive
    {
      running && threadAlive
    }

    /** `add_task`: (re)creates the entry with its counters at 0. */
    method AddTask(name: string, interval: int, description: string)
      modifies this
      ensures tasks == old(tasks)[name := NewTask(interval, description)]
      ensures running == old(running)
    {
      tasks := tasks[name := NewTask(interval, description)];
    }

    /** `remove_task`: a present name is removed; a missing one changes nothing. */
    method RemoveTask(name: string)
      modifies this
      ensures tasks == old(tasks) - {name}
      ensures running == old(running)
    {
      if name in tasks {
        tasks := tasks - {name};
      }
    }

    /** `get_tasks`. */
    method GetTasks() returns (info: map<string, TaskInfo>)
      ensures info == TaskInfos(tasks)
    {
      info := map[];
      var todo := tasks.Keys;
      while todo != {}
        invariant todo <= tasks.Keys
        invariant info.Keys == tasks.Keys - todo
        invariant forall n :: n in info ==> info[n] == Info(tasks[n])
        decreases todo
      {
        var n :| n in todo;
        var task := tasks[n];
        info := info[n := TaskInfo(task.description, task.interval, task.lastRun, task.runCount, task.errorCount,
                                   if task.lastRun > 0 then At(task.lastRun + task.interval) else Pending)];
        todo := todo - {n};
      }
    }

    /** One pass of `_scheduler_loop` at time `t`: every due task is run,
        and its entry updated by the outcome. */
    method Tick(t: int, fails: set<string>)
      modifies this
      ensures tasks == TickAll(old(tasks), t, fails)
      ensures running == old(running)
    {
      var todo := tasks.Keys;
      while todo != {}
        invariant todo <= tasks.Keys == old(tasks).Keys
        invariant forall n :: n in todo ==> tasks[n] == old(tasks)[n]
        invariant forall n :: n in tasks && n !in todo ==> tasks[n] == TickTask(old(tasks)[n], t, n in fails)
        invariant running == old(running)
        decreases todo
      {
        var name :| name in todo;
        var task := tasks[name];
        if t - task.lastRun >= task.interval {
          if name in fails {
            tasks := tasks[name := task.(errorCount := task.errorCount + 1)];
          } else {
            tasks := tasks[name := task.(lastRun := t, runCount := task.runCount + 1)];
          }
        }
        todo := todo - {name};
      }
    }

    /** `force_run_task`, finishing at time `t`. */
    method ForceRunTask(name: string, t: int, fails: bool) returns (ok: bool)
      modifies this
      ensures (tasks, ok) == ForceRun(old(tasks), name, t, fails)
      ensures running == old(running)
    {
      if name !in tasks {
        return false;
      }
      var task := tasks[name];
      if fails {
        tasks := tasks[name := task.(errorCount := task.errorCount + 1)];
        return false;
      }
      tasks := tasks[name := task.(lastRun := t, runCount := task.runCount + 1)];
      ok := true;
    }
  }
}
